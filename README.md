# ranyou fi(lter)/or(der): a Dafny model

ranyou is a YouTube playlist player. Its fi(lter)/or(der) ("fior") page lets the user
build *columns*. A column chooses some stored playlists and holds a set of *rows*. Each
row is a filter or an order and carries an `index`, and playing a column sends every
chosen playlist's items through the rows in `index` order.

This project models the following, and proves what each part promises:

- the client's query evaluator (`rowQuery`, `columnQuery`, `dataQuery`);
- the editor actions that change a column or a row in place:
  - the "isolated key set" of a check row;
  - sort-column add and remove;
  - row and column delete, with or without renumbering;
  - the index a new row gets;
  - the "+Column" naming rule;
  - the menu flag toggles;
  - the playlist toggle;
- the string helpers behind the editor: the ISO 8601 duration text (the `PTnHnMnS`
  designator form of section 4.4.3.2 of ISO 8601:2004) and `displayDuration`;
- the `/play/` search-parameter validator;
- the server code that turns YouTube API replies into stored items and records (the Rust
  core, the Rust lambda and the TypeScript server);
- the row decoding of the stored tables;
- the client's map of saved playlist records.

Modules:

- **Shared building blocks**
  - `Wrappers`: `Option` and `Result`.
  - `Seqs`: subsequences, indexed filtering, flag lists, `filter_map` and `flat_map`.
  - `StableSort`: a stable sort, proved sorted, a permutation, and order-preserving on ties. It stands for `Array.prototype.toSorted`.
  - `JsRuntime`: JavaScript number-to-text conversion, `parseInt`, `includes`, `padStart`, `slice`, `split`, the `/\D+/g` replacement, the default (code-unit) string order, numbers with `NaN`, and `undefined`/`null`.
- **The fior data and its evaluator**
  - `JsObject`: JavaScript objects as ordered association lists. Key order matters here: the sort is stable, renumbering and the playlist list follow enumeration order, and `Object.keys(cols)[0]` is read.
  - `Catalog`: the keys and kinds of the item fields.
  - `FiorModel`: the pipeline data model (items, rows, columns, records). It also holds the shared `Document` object that the editor components mutate.
  - `FiorQuery`: the evaluator.
- **The editor components**
  - `RowEditor`: the row components (`row.tsx`).
  - `ColumnEditor`: the column component (`column.tsx`).
  - `LivePage`: the page itself (`fior.tsx`).
  - `PlayRoute`: the `/play/` validator.
- **The servers and storage**
  - `YouTubeApi`: the API reply shapes.
  - `Paging`: the page-collecting loop shared by `get_all` and `create_items`.
  - `YouTubeClient`: `server/core/src/youtube.rs`.
  - `LambdaApi`: `server/src/lib.rs`.
  - `StoreModel`: `server/core/src/model.rs`.
  - `ServerRecords`: `server/src/index.ts`.
  - `RootRecords`: `client/src/routes/__root.tsx`.

Parts the source changes in place are classes:

- `FiorModel.Document`, the pipeline that every editor writes through;
- `ColumnEditor.ColumnEditor`;
- `RowEditor.CheckRowEditor`, `RowEditor.SortRowEditor`, `RowEditor.SearchRowEditor` and `RowEditor.RandomSelectEditor`;
- `RootRecords.RecordsProvider`.

Each of their methods states its whole new state in terms of pure functions, and the lemmas beside those functions state the invariants.

The loops of the source are methods with loop invariants:

- `run`'s column scan;
- `columnQuery`'s and `dataQuery`'s output loops;
- the page-collecting `while let` loop;
- the `forEach` renumbering;
- the check-row key reset;
- `removeRecord`'s `for...in` copy.

Each is proved equal to a specification function.

The model follows the code where the code and its written description differ:

- `get_all` and `create_items` return only the pages that carry a next-page token, so the last page is never part of the result (`Paging.PagesHaveNext`). The servers' operations keep that loop; the loop that keeps every page is `Paging.CollectAllPages` (see Findings).
- A check filter's predicate is a stub that rejects every item.
- Order rows return their input unchanged.
- The default "+Check" factory leaves `cols` undefined, which this `rowQuery` cannot handle (see Findings).
- The row menu's flags are flipped on the component's `rowItem`, which after the first click is a shallow copy that a later renumbering does not reach, so a click can store an outdated `index` (`RowEditor.MenuClick`, see Findings). The rest of the model uses the click on the document's own row.

## Model

| member | source | states |
|---|---|---|
| FiorQuery.Run | client/src/lib/fior.ts:127-137 | the `for` loop over `filter.cols`, with its early returns, gives exactly the answer of the recursive scan `Hit` |
| FiorQuery.Probe | client/src/lib/fior.ts:118-126 | the test applied to a stringified value: `re.test` for a regex search, `includes` otherwise; `FiorQuery.HitIff` uses it |
| FiorQuery.ColumnMatches | client/src/lib/fior.ts:129-133 | one column matches on its own: `index` by the decimal text of the position, another key by a truthy field whose text passes the test; `FiorQuery.HitIff` states how the columns combine |
| FiorQuery.Passes | client/src/lib/fior.ts:129-132 | the scan goes on past a column that is `index` or has a truthy field; `FiorQuery.FalsyEndsScan` states that a falsy field ends it |
| FiorQuery.Hit | client/src/lib/fior.ts:127-137 | the answer of `run(pi, i)`, columns tried in order; `FiorQuery.HitIff` and `FiorQuery.FalsyEndsScan` state what it means |
| FiorQuery.HitIff | client/src/lib/fior.ts:127-137 | an item is kept iff some selected column matches and every column before it in `cols` order has a truthy field (or is `index`) |
| FiorQuery.FalsyEndsScan | client/src/lib/fior.ts:132 | the first falsy selected field ends the scan: columns after it never decide, even if they would match |
| FiorQuery.RowQuery | client/src/lib/fior.ts:113-148 | the output is always a subsequence of the input; order rows, empty `cols` and an uncompilable regex return the input unchanged |
| FiorQuery.ColsLength | client/src/lib/fior.ts:116 | `filter.cols.length`: the length of a key list, undefined for an object-valued or missing `cols`; `FiorQuery.RowQuery` states which lengths pass the input through |
| FiorQuery.Keep | client/src/lib/fior.ts:117-142 | the `run` test: the search scan `Hit` for a search filter, `() => false` for every other filter; `FiorQuery.SearchKeeps` and `FiorQuery.CheckKeepsNothing` state its effect |
| FiorQuery.Select | client/src/lib/fior.ts:143 | `data.not ? items.filter((pi, i) => !run(pi, i)) : items.filter(run)`; `FiorQuery.NotPartitions` states that the two halves partition the input |
| FiorQuery.RowQueryAsWritten | client/src/lib/fior.ts:113-148 | `rowQuery` as written, failing with a `TypeError` for a check row whose `cols` is undefined (the as-written half of a Findings row); `FiorQuery.RowQueryAsWrittenAgrees` relates it to `RowQuery` |
| FiorQuery.RowQueryAsWrittenAgrees | client/src/lib/fior.ts:116 | the code as written throws exactly for a check row whose `cols` is undefined, and agrees with `RowQuery` everywhere else |
| FiorQuery.NotPartitions | client/src/lib/fior.ts:143 | for one row and one input, the `not:false` and `not:true` outputs together hold every input item exactly once, as multisets and in length |
| FiorQuery.CheckKeepsNothing | client/src/lib/fior.ts:138-143 | a check filter with non-empty `cols` keeps no item, and with `not` set keeps every item |
| FiorQuery.SearchKeeps | client/src/lib/fior.ts:117-137 | an item is in a search output iff it is some input position whose scan hits, with substring or regex probing |
| FiorQuery.IndexSearchUsesPosition | client/src/lib/fior.ts:129-130 | a search on the `index` column matches the decimal text of the item's position in the current input, in both directions |
| FiorQuery.IndexSearchKeeps | client/src/lib/fior.ts:129-130 | an item whose position's decimal text contains the search text is kept by a plain search on `index` |
| FiorQuery.IndexSearchOnly | client/src/lib/fior.ts:129-130 | every item a plain search on `index` keeps sits at a position whose decimal text contains the search text |
| FiorQuery.IndexLeIsPreorder | client/src/lib/fior.ts:50 | `cmpIndex` orders rows by a total preorder on `index` |
| FiorQuery.SortedRows | client/src/lib/fior.ts:95 | `Object.values(data.rows).toSorted(cmpIndex)`; `FiorQuery.SortedRowsOrder` states its order |
| FiorQuery.SortedRowsOrder | client/src/lib/fior.ts:95 | the rows are applied sorted by `index`, as a permutation of the column's rows, with ties in object order |
| FiorQuery.RunRows | client/src/lib/fior.ts:94-100 | the last list of `itemRecord` after the rows ran, each on the previous output, evaluated with the corrected `RowQuery`; `FiorQuery.RunRowsAppend`, `FiorQuery.RunRowsSubseq` and `FiorQuery.ZeroRowsGiveInput` state its properties |
| FiorQuery.RunRowsAppend | client/src/lib/fior.ts:95-98 | running rows `a + b` is running `b` on the output of `a`: each row takes the previous row's output |
| FiorQuery.RunRowsSubseq | client/src/lib/fior.ts:95-100 | a column's output for a playlist is a subsequence of that playlist's items |
| FiorQuery.OrderRowsKeepItems | client/src/lib/fior.ts:144-145 | a column made only of order rows returns the items unchanged |
| FiorQuery.Present | client/src/lib/fior.ts:91-93 | `data.records.filter((k) => playlists[k]).map((k) => playlists[k])`, in `records` order; `FiorQuery.PresentMembers` states its members |
| FiorQuery.PresentMembers | client/src/lib/fior.ts:91-93 | the chosen playlists are exactly the `records` ids that are present in `playlists` |
| FiorQuery.ColumnQuery | client/src/lib/fior.ts:83-103 | the imperative loop, with its `itemRecord` push list, builds exactly `ColumnOutput`, evaluated with the corrected `RowQuery`: where a fresh "+Check" row has `cols` undefined the source throws instead (see Findings) |
| FiorQuery.FillOutput | client/src/lib/fior.ts:90-102 | the outer `for ... of` loop leaves in `output` one entry per chosen playlist id, each its items through every row, a later playlist of the same id overwriting an earlier one |
| FiorQuery.ThreadRows | client/src/lib/fior.ts:94-100 | the inner loop pushes each sorted row's output onto `itemRecord`; the last list is the items through all rows in order |
| FiorQuery.RunRowsStep | client/src/lib/fior.ts:96-98 | each push applies the next sorted row to the last list pushed |
| FiorQuery.Outputs | client/src/lib/fior.ts:90-102 | the `output` record after the chosen playlists went through the rows, one `output[pr.playlist_id] =` write each; `FiorQuery.OutputsKeys` and `FiorQuery.OutputsValue` state its keys and values |
| FiorQuery.OutputsStep | client/src/lib/fior.ts:100 | each chosen playlist writes its final list under its `playlist_id` |
| FiorQuery.OutputsKeys | client/src/lib/fior.ts:100 | the output has a key exactly for each `playlist_id` among the chosen playlists |
| FiorQuery.OutputsValue | client/src/lib/fior.ts:100 | the last chosen playlist with an id decides that id's list, which is the rows run on its items |
| FiorQuery.ColumnOutput | client/src/lib/fior.ts:83-103 | what `columnQuery` returns, the chosen playlists run through the sorted rows; `FiorQuery.ColumnOutputKeys` and `FiorQuery.OutputsValue` state its keys and values |
| FiorQuery.ColumnOutputKeys | client/src/lib/fior.ts:91-100 | the column's output keys are exactly the ids of records that are both chosen and present |
| FiorQuery.ZeroRowsGiveInput | client/src/lib/fior.ts:94-100 | with no rows, a playlist's output is its original item list |
| FiorQuery.DataQuery | client/src/lib/fior.ts:69-82 | the imperative loop builds exactly `DataOutput`, each column evaluated with the corrected `RowQuery`: where a fresh "+Check" row has `cols` undefined the source throws instead (see Findings) |
| FiorQuery.DataOutput | client/src/lib/fior.ts:78-81 | the `output` record of `dataQuery`, one write per requested id that names a column; `FiorQuery.DataOutputKeys` states its keys and values |
| FiorQuery.DataOutputKeys | client/src/lib/fior.ts:79-80 | the output keys are exactly the requested ids that exist in `data.columns`, and each holds that column's query output |
| Catalog.AllKeys | client/src/page/fior/row.tsx:76-77 | the item-key catalogue lists every key exactly once |
| Catalog.KeysOfKind | client/src/page/fior/row.tsx:164-167 | `Object.entries(PlItemData).filter(kind)` lists exactly the keys of that kind, each once |
| Catalog.KeysWhere | client/src/page/fior/row.tsx:165-167 | filtering keys by kind keeps exactly the members of that kind and keeps them distinct |
| RowEditor.Cleared | client/src/page/fior/row.tsx:168 | the reset writes every key of the kind as `false`, in catalogue order |
| RowEditor.KindPosition | client/src/page/fior/row.tsx:164-169 | the clicked key is among the keys of its own kind, and the reset map has distinct keys |
| RowEditor.FromUnset | client/src/page/fior/row.tsx:163-171 | starting from undefined, clicking k gives a map with exactly the keys of k's kind, only k true |
| RowEditor.FlipKeepsIsolated | client/src/page/fior/row.tsx:152-161 | flipping a key of the same kind keeps the isolated-set invariant (all keys one kind, some key true, or undefined) |
| RowEditor.NextColsKeepsIsolated | client/src/page/fior/row.tsx:149-172 | after any click from a state meeting the invariant, `cols` is undefined or a one-kind map with distinct keys and a true value (the live page's copy of `colChange`, client/src/page/fior.tsx lines 185-208, is the same code) |
| RowEditor.NextCols | client/src/page/fior/row.tsx:149-172 | the next `cols` of `colChange(k)` and whether `setValue("")` runs; its properties are stated by `RowEditor.NextColsKeepsIsolated`, `RowEditor.UnsetClick`, `RowEditor.NoClick` and `RowEditor.ClearsOnDurationOff` |
| RowEditor.Start | client/src/page/fior/row.tsx:164-169 | the first click's map: every key of k's kind `false`, then k `true`; `RowEditor.FromUnset` states its keys and values |
| RowEditor.Flip | client/src/page/fior/row.tsx:152-161 | a click on a key of the set's kind: flip it, and reset to undefined when no key is left on; `RowEditor.FlipKeepsIsolated` and `RowEditor.LastOffResets` state what it keeps |
| RowEditor.UnsetClick | client/src/page/fior/row.tsx:163-171 | a click while `cols` is undefined gives the start map and leaves the shown value alone |
| RowEditor.NoClick | client/src/page/fior/row.tsx:151-152 | a click on a key of another kind than `Object.keys(cols)[0]`, or while `cols` holds a key list, changes nothing and clears nothing |
| RowEditor.ClearsOnDurationOff | client/src/page/fior/row.tsx:154 | the editor's shown value (the `value` state, not `check.value`) is cleared only when the click turned `duration` off |
| RowEditor.LastOffResets | client/src/page/fior/row.tsx:155-157 | turning off the last true key resets `cols` to undefined |
| RowEditor.OneKindUpdate | client/src/page/fior/row.tsx:153 | overwriting an entry with a key of the same kind keeps the map one-kind |
| RowEditor.OneKindAppend | client/src/page/fior/row.tsx:153 | adding a key of the same kind keeps the map one-kind |
| RowEditor.CheckRowEditor.constructor | client/src/page/fior/row.tsx:146-148 | the editor starts from `check.cols` and shows `check.value` |
| RowEditor.CheckRowEditor.ColChange | client/src/page/fior/row.tsx:149-174 | the in-place click sets `check.cols` to `NextCols`'s next state, and `setValue("")` clears the editor's shown value exactly on a click that turns `duration` off; `check.value` is not touched |
| RowEditor.StartCols | client/src/page/fior/row.tsx:164-169 | the `forEach` reset followed by `newCols[k] = true` builds the specified start map |
| RowEditor.ClearedStep | client/src/page/fior/row.tsx:168 | one `forEach` step writes the next key as `false`, extending the reset map |
| RowEditor.ClearedSnoc | client/src/page/fior/row.tsx:168 | the reset map grows by one entry per key, at the end |
| RowEditor.DurationRoundTrip | client/src/page/fior/row.tsx:250-254 | for digit-only h, m, s, building `PT h H m M s S` and reading it back with `slice(2,-1).replace(/\D+/g, ":")` gives `h:m:s` |
| RowEditor.ReplaceTime | client/src/page/fior/row.tsx:250 | the `/\D+/g` replacement turns `hHmMs` into `h:m:s` |
| RowEditor.SplitTime | client/src/page/fior/row.tsx:252 | splitting digit-only `h:m:s` at `:` gives exactly the three parts |
| RowEditor.SplitDigits | client/src/page/fior/row.tsx:252 | a digit run up to the first `:` is one part of the split |
| RowEditor.ReplaceKeepsDigits | client/src/page/fior/row.tsx:250 | the replacement leaves a digit prefix as it is |
| RowEditor.ReplaceOneLetter | client/src/page/fior/row.tsx:250 | a single non-digit before digits becomes the replacement text |
| RowEditor.ReplaceMinutes | client/src/page/fior/row.tsx:250 | `mMs` becomes `m:s` |
| RowEditor.ReplaceParts | client/src/page/fior/row.tsx:250 | `hHmMs` becomes `h:m:s`, grouped to the right |
| RowEditor.TimeText | client/src/page/fior/row.tsx:250 | `value.slice(2, -1).replace(/\D+/g, ":")`; `RowEditor.DurationRoundTrip` states what it reads back |
| RowEditor.DurationValue | client/src/page/fior/row.tsx:252-254 | `"PT" + parts[0] + "H" + parts[1] + "M" + parts[2] + "S"`, with `undefined` for a missing part; `RowEditor.DurationRoundTrip` states the round trip |
| RowEditor.CatalogueKeys | client/src/page/fior/row.tsx:294-296 | the keys kept from the catalogue are those whose membership in `cols` is as asked, in catalogue order, without duplicates |
| RowEditor.KeysIn | client/src/page/fior/row.tsx:295 | filtering a key list by membership keeps exactly the asked-for keys, as a subsequence, duplicate-free if the list is |
| RowEditor.Offered | client/src/page/fior/row.tsx:324 | the add menu offers exactly the keys not already in `cols` |
| RowEditor.SortRowEditor.constructor | client/src/page/fior/row.tsx:294-296 | the list holds exactly the keys of `sort.cols` (none when it is undefined), in catalogue order, without duplicates |
| RowEditor.SortRowEditor.Add | client/src/page/fior/row.tsx:329-333 | `cols.push(k)` for an offered key appends it and keeps `cols` duplicate-free |
| RowEditor.SortRowEditor.Close | client/src/page/fior/row.tsx:306-310 | `cols.splice(i, 1)` removes exactly the entry at i; a duplicate-free list stays so and loses that key |
| RowEditor.CloseKeepsOthers | client/src/page/fior/row.tsx:307 | removing index i keeps every other key and keeps the list duplicate-free |
| RowEditor.SearchRowEditor.constructor | client/src/page/fior/row.tsx:76-78 | one flag per catalogue key, in catalogue order, set iff `search.cols` holds the key; `search.cols` itself is left as it was |
| RowEditor.SearchRowEditor.ColChange | client/src/page/fior/row.tsx:79-84 | a click flips only flag i, and `search.cols` becomes the flagged keys in catalogue order |
| RowEditor.CountUpdate | client/src/page/fior/row.tsx:407 | `parseInt(v.value === "" ? "0" : v.value)`, `None` for `NaN`; `RowEditor.CountUpdateCases` states its cases |
| RowEditor.CountUpdateCases | client/src/page/fior/row.tsx:406-411 | an empty count reads as 0, decimal digits read as their value, and text that `parseInt` rejects changes nothing |
| RowEditor.RandomSelectEditor.constructor | client/src/page/fior/row.tsx:398-399 | the editor starts from `random.selectCount`, showing its `toString()` |
| RowEditor.RandomSelectEditor.CountChange | client/src/page/fior/row.tsx:406-411 | a NaN parse leaves the count and its text unchanged; otherwise both are updated |
| RowEditor.FlipRegex | client/src/page/fior/row.tsx:511-514 | "Regex" flips the search filter's `regex`; `RowEditor.FlipsChangeOneField` states that nothing else changes |
| RowEditor.FlipNot | client/src/page/fior/row.tsx:527-528 | "Exclude" flips the filter row's `not`; `RowEditor.FlipsChangeOneField` states that nothing else changes |
| RowEditor.FlipRev | client/src/page/fior/row.tsx:543-544 | "Reverse" flips the order row's `rev`; `RowEditor.FlipsChangeOneField` states that nothing else changes |
| RowEditor.WithRow | client/src/page/fior/row.tsx:467 | `items.columns[column].rows[row] = rowItem` stores one row; `RowEditor.FlipsChangeOneField` states that every other row and column is kept |
| RowEditor.FlipsChangeOneField | client/src/page/fior/row.tsx:510-544 | a click on the document's own row flips one boolean of that row and keeps its `index`, and every other field, row and column stays as it was (the corrected half of a Findings row) |
| RowEditor.OnMenu | client/src/page/fior/row.tsx:505-550 | "Regex" is on the menu of a search filter, "Exclude" on any filter, "Reverse" on an order |
| RowEditor.ApplyItem | client/src/page/fior/row.tsx:510-544 | the flip each menu item makes, on the row it is given; its properties are `RowEditor.FlipsChangeOneField` |
| RowEditor.SeenRow | client/src/page/fior/row.tsx:465-466 | the row `rowItem` stands for: the document's row at first, and after a click the copy's own flag and `index` over the shared filter or order |
| RowEditor.MenuClick | client/src/page/fior/row.tsx:465-469 | a click as written flips the field on `rowItem`, stores it as the document's row and keeps a shallow copy as the new state (the as-written half of a Findings row); `RowEditor.MenuClickInSync` and `RowEditor.MenuClickWritesCopy` state what it does |
| RowEditor.MenuClickInSync | client/src/page/fior/row.tsx:465-469 | while the state is the document's row or a copy agreeing with it, a click as written equals the click on the document's row, and the new copy agrees with what was written |
| RowEditor.MenuClickWritesCopy | client/src/page/fior/row.tsx:465-469 | once there is a copy, a click stores the copy's `index` whatever the document's row holds, and the copy's flag negated ("Exclude", "Reverse") or unchanged ("Regex") |
| RowEditor.StaleIndexReturns | client/src/page/fior/row.tsx:465-469 | rows a, b, c at 0, 1, 2: "Exclude" on c, delete a (c renumbered to 1), "Exclude" on c again stores index 2 with two rows left, where the click on the document's row keeps 1 |
| RowEditor.RowMenu.constructor | client/src/page/fior/row.tsx:465 | `rowItem` starts as the document's own row object |
| RowEditor.RowMenu.Click | client/src/page/fior/row.tsx:465-469 | a click writes back exactly `MenuClick`'s row into the document, every other row and column unchanged, and keeps its copy as the state |
| RowEditor.Renumber | client/src/page/fior/row.tsx:561-563 | the `forEach` renumbering gives every entry its enumeration position as `index` |
| RowEditor.DeleteAndRenumber | client/src/page/fior/row.tsx:559-563 | delete then renumber writes back the column with that row removed and the rest renumbered |
| RowEditor.RenumberedRows | client/src/page/fior/row.tsx:559-563 | after the delete, the row is gone, every other row stays with the same operation and order, and the indices are 0..n-1 |
| RowEditor.KeysOfSubseq | client/src/page/fior/row.tsx:560 | removing entries keeps the remaining keys in their order |
| FiorModel.Renumbered | client/src/page/fior/row.tsx:561-563 | renumbering keeps every key and position and sets `index` to the position |
| ColumnEditor.ItemsOf | client/src/page/fior/column.tsx:48-50 | a shown item carries the original item unchanged |
| ColumnEditor.ToShownItem | client/src/page/fior/column.tsx:52-55 | `{ ...pi, index }`: the item with its shown position; `ColumnEditor.Shown` states that every item is kept and numbered by its position |
| ColumnEditor.Shown | client/src/page/fior/column.tsx:52-55 | `items.map(toShownItem)` copies each item and gives it its list position as `index` |
| ColumnEditor.TwoDigits | client/src/page/fior/column.tsx:58 | a number below 100, padded to width 2 with "0", is two digits of that value |
| ColumnEditor.TwoDigitsFacts | client/src/page/fior/column.tsx:58 | `toString().padStart(2, "0")` of a number below 100 is two digits denoting it |
| ColumnEditor.DisplayDuration | client/src/page/fior/column.tsx:57-59 | `displayDuration(d)`; `ColumnEditor.DisplayMinutes` and `ColumnEditor.DisplayHours` state its two cases |
| ColumnEditor.DisplayMinutes | client/src/page/fior/column.tsx:57-59 | with falsy hours the text is `minutes:ss` |
| ColumnEditor.DisplayHours | client/src/page/fior/column.tsx:57-59 | with non-zero hours the text is `hours:mm:ss`, the `m:ss` part padded with "0" to 5 characters |
| ColumnEditor.NewFilter | client/src/page/fior/column.tsx:123-139 | the filter each "+Filter" entry creates, "+Check" with `cols` undefined; `ColumnEditor.NewRowsAreNoOps` and `ColumnEditor.NewCheckRowThrows` state how they evaluate |
| ColumnEditor.NewOrder | client/src/page/fior/column.tsx:141-148 | the order each "+Order" entry creates; `ColumnEditor.NewRowsAreNoOps` states that it returns its input |
| ColumnEditor.NewRowsAreNoOps | client/src/page/fior/column.tsx:123-148 | freshly made "+Search", "+Random Select", "+Sort" and "+Randomise" rows (the corrected "+Check" too) leave the items unchanged |
| ColumnEditor.NewCheckRowThrows | client/src/page/fior/column.tsx:129-133 | a freshly made "+Check" row, with `cols: undefined`, makes the code as written throw |
| ColumnEditor.AddedRowGoesLast | client/src/page/fior/column.tsx:184-187 | a row under a fresh id is appended last and every existing row is untouched |
| ColumnEditor.DisplayedRows | client/src/page/fior/column.tsx:286-287 | the row ids sorted by their rows' `index`; `ColumnEditor.DisplayedRowsOrder` states its order |
| ColumnEditor.DisplayedRowsOrder | client/src/page/fior/column.tsx:286-287 | the rows are displayed sorted by `index`, as a permutation of the row ids, with ties in their earlier order |
| ColumnEditor.RowCount | client/src/page/fior/column.tsx:172 | `Object.values(newPI).reduce((n, pi) => n + pi.length, 0)`; `ColumnEditor.RowCountIsDrawerLength` states what it counts |
| ColumnEditor.Flatten | client/src/page/fior/column.tsx:368 | `Object.values(playlistItems).flatMap((pi) => pi)`; `ColumnEditor.FlattenSnoc` and `ColumnEditor.RowCountIsDrawerLength` state its properties |
| ColumnEditor.FlattenSnoc | client/src/page/fior/column.tsx:368 | summing one more playlist's output adds its items at the end |
| ColumnEditor.RowCountIsDrawerLength | client/src/page/fior/column.tsx:171-172 | the displayed row count is the total number of items over all per-playlist outputs |
| ColumnEditor.PlaylistFlags | client/src/page/fior/column.tsx:191-192 | the playlist flags list every record in order, flagged iff the column chooses it |
| ColumnEditor.ColumnEditor.constructor | client/src/page/fior/column.tsx:183-193 | the editor's row list is `Object.keys(colItem.rows)`, and its playlist flags list every record, flagged iff the column chooses it |
| ColumnEditor.ColumnEditor.AddRow | client/src/page/fior/column.tsx:184-187 | a new row goes under the given id with `index` the current number of rows, and its id is appended to the row list; the playlists are unchanged (the "+Filter" and "+Order" menus compute the index as `Object.keys(rows).length`, and the live page's `addRow` and its "+Search", "+Check" and "+Order" buttons use the displayed row count) |
| ColumnEditor.ColumnEditor.Rename | client/src/page/fior/column.tsx:211-212 | renaming changes only the column's name |
| ColumnEditor.ColumnEditor.ReloadRows | client/src/page/fior/column.tsx:293-294 | the row list is reloaded as the column's row ids in object order |
| ColumnEditor.ColumnEditor.TogglePlaylist | client/src/page/fior/column.tsx:268-273 | only flag i flips, and `colItem.records` becomes the flagged ids in record order |
| ColumnEditor.ToggledRecords | client/src/page/fior/column.tsx:269-272 | after the toggle, a playlist is chosen iff it was (or, for playlist i, iff it was not); the choice keeps record order |
| ColumnEditor.PlaylistLabel | client/src/page/fior/column.tsx:247-251 | the playlist button's label; `ColumnEditor.PlaylistLabelCases` states its two cases |
| ColumnEditor.PlaylistLabelCases | client/src/page/fior/column.tsx:247-251 | one chosen playlist shows its title; otherwise the label is the decimal count followed by " selected" |
| ColumnEditor.DeleteColumn | client/src/page/fior/column.tsx:233-234 | delete followed by the `forEach` renumbering leaves the remaining columns renumbered |
| ColumnEditor.RenumberedColumns | client/src/page/fior/column.tsx:233-234 | after the delete, the column is gone, the others keep their order and contents, and `index` runs 0..n-1 |
| LivePage.NameNumber | client/src/page/fior.tsx:726-729 | the `parseInt` of the text after a `fior-` prefix, `None` for other names and for `NaN`; `LivePage.FiorNameNumber` reads a `fior-<n>` name back as n |
| LivePage.Suffixes | client/src/page/fior.tsx:724-729 | the numeric suffixes in column order; `LivePage.UsedIsSuffix` states that they are exactly the numbers in use |
| LivePage.NameNumbers | client/src/page/fior.tsx:723-729 | each column's `parseInt` of its name suffix, in column order |
| LivePage.SomesIff | client/src/page/fior.tsx:727-729 | the suffixes that survive the `isNaN` filter are exactly the numeric ones |
| LivePage.NumberTextLeIsTotalPreorder | client/src/page/fior.tsx:730 | the default `toSorted` compares numbers by their decimal text, a total preorder |
| LivePage.FirstMismatch | client/src/page/fior.tsx:731 | `findIndex((n, i) => n !== i)` is the first position holding another value, or -1 when every position holds itself |
| LivePage.FiorNameNumber | client/src/page/fior.tsx:734 | the name `"fior-" + n` reads back as n |
| LivePage.TextOrderOfSmallNumbers | client/src/page/fior.tsx:730 | the default sort puts 10 before 2: [0, 1, 2, 10] sorts as [0, 1, 10, 2] |
| LivePage.NewColumnNumberAsWritten | client/src/page/fior.tsx:723-732 | the number the button as written gives the new column (the as-written half of a Findings row); `LivePage.NewColumnNameClash` shows it can be in use |
| LivePage.NewColumnNameClash | client/src/page/fior.tsx:723-734 | with columns fior-0, fior-1, fior-2 and fior-10, the rule as written picks fior-2 again |
| LivePage.MexFrom | client/src/page/fior.tsx:723-732 | the least number from n that is not a suffix, with every number below it in use |
| LivePage.UsedIsSuffix | client/src/page/fior.tsx:726-729 | a number is used iff some column is named `fior-` followed by text that `parseInt` reads as it |
| LivePage.NewColumnNumber | client/src/page/fior.tsx:723-732 | the corrected number: the least number below the count of `fior-<n>` columns that none of them uses, else the number of columns, the source's own fallback (the corrected half of a Findings row); `LivePage.NewColumnNameFresh` states that it is free and `LivePage.NewColumnNumberChoice` which number it is |
| LivePage.CoveredHoldsNothingElse | client/src/page/fior.tsx:731-732 | n numbers that include each of 0..n-1 include no other, so the count fallback is never in use |
| LivePage.NoGapAgrees | client/src/page/fior.tsx:731-732 | when the button as written finds no mismatch, both rules give the number of columns |
| LivePage.NewColumnNameFresh | client/src/page/fior.tsx:723-734 | the corrected name differs from every existing column's name |
| LivePage.NewColumnNumberChoice | client/src/page/fior.tsx:723-732 | either the corrected number is below the count of `fior-<n>` columns and every smaller number is used, or those columns use exactly the numbers below their count and the new number is the number of columns |
| LivePage.AddColumn | client/src/page/fior.tsx:723-738 | the new column goes last under a fresh id, with empty rows and records and `index` the earlier number of columns, named by the corrected rule `NewColumnNumber`; on columns fior-0, fior-1, fior-2 and fior-10 the source adds a second fior-2 where this adds fior-3, and where the numbered columns leave no gap both use the number of columns (see Findings) |
| LivePage.AddColumnKeepsNumbering | client/src/page/fior.tsx:733-738 | adding a column to columns numbered 0..n-1 keeps them numbered and the ids distinct, and the new name is fresh: it differs from every existing column's name |
| LivePage.DeleteRow | client/src/page/fior.tsx:415 | the live page's row delete removes that row and renumbers nothing |
| LivePage.DeleteColumn | client/src/page/fior.tsx:511 | the live page's column delete removes that column and renumbers nothing |
| LivePage.DeleteWithoutRenumberRepeatsIndex | client/src/page/fior.tsx:415 | without renumbering, deleting row 0 of two rows and adding one gives two rows with index 1 |
| PlayRoute.ValidateSearch | client/src/routes/play/index.tsx:10-25 | fails exactly when `playlistId` is not a string; otherwise it passes `playlistId` through, keeps `fior` only when it is a string, and the index is never NaN nor below 1 |
| PlayRoute.RawIndex | client/src/routes/play/index.tsx:11-18 | `index` before the final check; `PlayRoute.IndexCases` states its cases |
| PlayRoute.IndexCases | client/src/routes/play/index.tsx:11-19 | a number gives itself, text gives its `parseInt`, and absent, NaN or below 1 gives 1 |
| PlayRoute.IndexFromText | client/src/routes/play/index.tsx:16-17 | a page number written in decimal comes back as that number |
| JsRuntime.NatToString | client/src/lib/fior.ts:130 | `toString` of a natural number is a non-empty digit string with no leading zero |
| JsRuntime.IntToString | client/src/lib/fior.ts:133 | `toString` of an integer is its sign followed by the natural-number text |
| JsRuntime.DecimalValueOfNatToString | client/src/lib/fior.ts:130 | the decimal text of n reads back as n |
| JsRuntime.NatToStringInjective | client/src/lib/fior.ts:130 | different positions have different decimal texts |
| JsRuntime.TrimStartDropsWhiteSpace | client/src/routes/play/index.tsx:17 | `parseInt` drops exactly the leading white space |
| JsRuntime.DigitRunIsLongest | client/src/routes/play/index.tsx:17 | `parseInt` reads the longest run of digits of the radix |
| JsRuntime.ParseInt | client/src/routes/play/index.tsx:17 | `parseInt(s)`, `None` for `NaN`; `JsRuntime.TrimStartDropsWhiteSpace`, `JsRuntime.DigitRunIsLongest`, `JsRuntime.ParseIntOfDigits`, `JsRuntime.ParseIntOfNatToString` and `JsRuntime.ParseIntNoDigits` state its behaviour |
| JsRuntime.ParseIntOfDigits | client/src/routes/play/index.tsx:17 | a decimal digit string followed by a non-digit reads as its value |
| JsRuntime.ParseIntOfNatToString | client/src/routes/play/index.tsx:17 | `parseInt` of n's decimal text is n |
| JsRuntime.ParseIntNoDigits | client/src/page/fior/row.tsx:407-408 | text starting with something other than a sign, a digit or white space is NaN |
| JsRuntime.DigitRunPrefix | client/src/routes/play/index.tsx:17 | the digit run of digits followed by a non-digit is exactly those digits |
| JsRuntime.IncludesIff | client/src/lib/fior.ts:118 | `h.includes(s)` holds iff `s` occurs in `h` at some position |
| JsRuntime.PadStart | client/src/page/fior/column.tsx:58-59 | `padStart` keeps the text at the end, fills with the pad character and reaches the width |
| JsRuntime.Slice | client/src/page/fior/row.tsx:250 | `slice` with relative indices returns a piece no longer than the text |
| JsRuntime.Split | client/src/page/fior/row.tsx:252 | `split` always yields at least one part |
| JsRuntime.ReplaceNonDigitRuns | client/src/page/fior/row.tsx:250 | `s.replace(/\D+/g, rep)`; `RowEditor.ReplaceKeepsDigits`, `RowEditor.ReplaceOneLetter` and `RowEditor.ReplaceParts` state what it does to duration text |
| JsRuntime.SkipNonDigits | client/src/page/fior/row.tsx:250 | a `\D+` run is skipped up to the next digit |
| JsRuntime.CodeUnitLeTotal | client/src/page/fior.tsx:730 | the default string order is total |
| JsRuntime.CodeUnitLeTransitive | client/src/page/fior.tsx:730 | the default string order is transitive |
| JsRuntime.CodeUnitLeAntisymmetric | client/src/page/fior.tsx:730 | the default string order is antisymmetric |
| StableSort.SortPermutes | client/src/lib/fior.ts:95 | `toSorted` returns a permutation of its input |
| StableSort.SortSorted | client/src/lib/fior.ts:95 | `toSorted` with a total preorder returns a sorted list |
| StableSort.SortStable | client/src/lib/fior.ts:95 | `toSorted` is stable: elements that compare equal keep their order |
| StableSort.InsertPermutes | client/src/page/fior/column.tsx:287 | one insertion step adds exactly the inserted element |
| StableSort.InsertSorted | client/src/page/fior/column.tsx:287 | one insertion step keeps the list sorted |
| StableSort.InsertTies | client/src/page/fior/column.tsx:287 | one insertion step puts the new element before its equals from later in the input |
| Seqs.FilterIndexedIsSubseq | client/src/lib/fior.ts:143 | `items.filter` returns a subsequence of the items |
| Seqs.FilterIndexedKept | client/src/lib/fior.ts:143 | every item the filter keeps sits at some position where the predicate holds |
| Seqs.FilterIndexedKeeps | client/src/lib/fior.ts:143 | every item at a position where the predicate holds is kept |
| Seqs.FilterPartition | client/src/lib/fior.ts:143 | a filter and its negation split the items between them |
| Seqs.FilterAll | client/src/lib/fior.ts:143 | a predicate that always holds keeps everything |
| Seqs.FilterNone | client/src/lib/fior.ts:141-143 | a predicate that never holds keeps nothing |
| Seqs.SubseqReflexive | client/src/lib/fior.ts:116 | a list is a subsequence of itself |
| Seqs.SubseqTransitive | client/src/lib/fior.ts:95-98 | subsequence chains compose through successive rows |
| Seqs.SubseqElements | client/src/lib/fior.ts:143 | a subsequence is no longer than the list and holds no extra items |
| Seqs.ToggleAt | client/src/page/fior/column.tsx:269 | `flags[i] = [flags[i][0], !flags[i][1]]` flips flag i and keeps everything else |
| Seqs.Names | client/src/page/fior/column.tsx:269 | the names of a flag list, in order |
| Seqs.ChosenMembers | client/src/page/fior/column.tsx:270-272 | `filter(c => c[1]).map(k => k[0])` holds exactly the names flagged true |
| Seqs.ChosenIsSubseq | client/src/page/fior/column.tsx:270-272 | the chosen names keep the flag-list order |
| Seqs.ToggleChosen | client/src/page/fior/column.tsx:269-272 | after toggling flag i, only the name at i changes membership |
| Seqs.FilterMapAppend | server/core/src/youtube.rs:70-93 | `filter_map` over two lists is the two results concatenated |
| Seqs.FilterMapLength | server/core/src/youtube.rs:75 | `filter_map` yields at most one output per input |
| Seqs.FilterMapMember | server/core/src/youtube.rs:75 | an output is in the result iff some input maps to it |
| Seqs.FlatMapAppend | server/core/src/youtube.rs:29 | `flat_map` over two page lists is the two results concatenated |
| JsObject.Keys | client/src/page/fior/column.tsx:183 | `Object.keys` lists the keys in enumeration order |
| JsObject.Values | client/src/lib/fior.ts:95 | `Object.values` lists the values in enumeration order |
| JsObject.Get | client/src/lib/fior.ts:92 | a lookup finds a value exactly for the present keys |
| JsObject.GetAt | client/src/lib/fior.ts:92 | in an object with distinct keys, looking up an entry's key finds that entry's value |
| JsObject.Put | client/src/routes/__root.tsx:25 | assignment sets the key, leaves every other key, appends a new key last and keeps keys distinct |
| JsObject.PutAbsent | client/src/page/fior/column.tsx:186 | assigning a new key appends the entry at the end |
| JsObject.PutPresent | client/src/page/fior/row.tsx:153 | assigning an existing key overwrites the value in place |
| JsObject.Remove | client/src/routes/__root.tsx:31 | deletion removes the key, leaves every other key, keeps the order, and changes nothing when the key is absent |
| JsObject.RemoveSnoc | client/src/routes/__root.tsx:31 | copying one more entry, other than the removed key, extends the copy by that entry |
| YouTubeApi.U32AsI32 | server/core/src/youtube.rs:87 | `as i32` keeps the value modulo 2^32 and keeps values below 2^31 unchanged |
| YouTubeClient.Project | server/core/src/youtube.rs:75-91 | an item is emitted iff it is public and has every required field; `added_at` comes from `published_at`, `published_at` from `video_published_at`, a missing note becomes "" and the position is cast |
| YouTubeClient.MapRes | server/core/src/youtube.rs:70-93 | `map_res`: the projections of a page's items; `YouTubeClient.MapResSpec` and `YouTubeClient.MapResInOrder` state its properties |
| YouTubeClient.MapResSpec | server/core/src/youtube.rs:70-93 | output j is the projection of the input item at position `SourcePositions(res)[j]`; those positions strictly increase and are exactly the items that project, so each such item gives exactly one output, in input order; no `items` gives none |
| YouTubeClient.MapResInOrder | server/core/src/youtube.rs:70-93 | the outputs keep the input order |
| YouTubeClient.GetAll | server/core/src/youtube.rs:33-41 | the `while let` loop returns exactly the pages of the chain that carry a next token; the final page is never included |
| YouTubeClient.VideoIds | server/core/src/youtube.rs:24-31 | the video ids of the items, in order |
| YouTubeClient.Dedupe | server/core/src/youtube.rs:29-30 | the `collect()` into a `HashSet`, keeping the first item per `video_id`; `YouTubeClient.DedupeIds` and `YouTubeClient.DedupeMembers` state its contents |
| YouTubeClient.DedupeIds | server/core/src/youtube.rs:24-31 | the collected set never holds two items with one `video_id`, and covers every video id seen |
| YouTubeClient.DedupeMembers | server/core/src/youtube.rs:24-31 | an item is kept iff it is the first one seen with its `video_id` (`HashSet` keeps the existing element) |
| YouTubeClient.DedupeKeepsFirst | server/core/src/youtube.rs:24-31 | the first item seen with a `video_id` is always in the collected set |
| YouTubeClient.DedupeOnlyFirst | server/core/src/youtube.rs:24-31 | every collected item is an input item that is first with its `video_id` |
| YouTubeClient.CollectItems | server/core/src/youtube.rs:25-30 | every kept page's items, projected and collected by video id; `YouTubeClient.GetItems` and `YouTubeClient.MissedItems` state it |
| YouTubeClient.GetItems | server/core/src/youtube.rs:24-31 | a page error passes through; otherwise the result is the deduplicated projection of every collected page, with distinct video ids |
| YouTubeClient.MissedItems | server/core/src/youtube.rs:24-41 | the items of the whole page chain are those `get_items` reads followed by those of the final page: only the final page's items are missed |
| YouTubeClient.OnePagePlaylistYieldsNothing | server/core/src/youtube.rs:33-41 | for a playlist of one page, `get_all` keeps no page and `get_items` returns no item, where the whole chain is that page (the as-written half of a Findings row) |
| Paging.CollectPages | server/core/src/youtube.rs:33-41 | the loop returns exactly the specified page chain, or the first fetch error |
| Paging.PagesHaveNext | server/core/src/youtube.rs:36-37 | every collected page carries a next-page token |
| Paging.PagesChain | server/core/src/youtube.rs:35-38 | the first page is the untokened fetch, and each later page is the fetch of the token before it |
| Paging.PagesFuel | server/core/src/youtube.rs:33-41 | the collected pages do not depend on the bound used to show the loop ends |
| Paging.PrependAssoc | server/core/src/youtube.rs:37 | pushing a page onto the pages collected so far is associative with the rest of the chain |
| Paging.CollectAllPages | server/core/src/youtube.rs:33-41 | the loop with the last page pushed after it returns exactly every page of the chain, the final one included, or the first fetch error (the corrected half of a Findings row) |
| Paging.PagesDropFinal | server/core/src/youtube.rs:36-40 | the pages the `while let` loop keeps are the whole chain without its final page, the one naming no next page; both fail alike |
| Paging.OnePageKeepsNothing | server/core/src/youtube.rs:35-36 | a chain of one page keeps nothing, where the whole chain is that page |
| LambdaApi.Project | server/src/lib.rs:81-99 | an item is emitted iff it is public and has `id`, a note and every other required field |
| LambdaApi.ProjectAgainstCore | server/src/lib.rs:88-96 | the lambda keeps an item iff the core does and it has `id` and a note; a missing note drops it here but gives "" in the core |
| LambdaApi.MapRes | server/src/lib.rs:77-100 | `map_res`: the projections of a page's items; `LambdaApi.MapResSpec` and `LambdaApi.MapResInOrder` state its properties |
| LambdaApi.MapResSpec | server/src/lib.rs:77-100 | output j is the projection of the input item at position `SourcePositions(res)[j]`; those positions strictly increase and are exactly the items that project, so each such item gives exactly one output, in input order; no `items` gives none |
| LambdaApi.MapResInOrder | server/src/lib.rs:77-100 | the items of `a + b` give those of `a`, then those of `b` |
| LambdaApi.CreateItems | server/src/lib.rs:64-75 | the loop returns exactly the pages that carry a next token, dropping the final page |
| LambdaApi.PlaylistIdParam | server/src/lib.rs:103-105 | the id is the first value of the `playlist-id` parameter, present iff that parameter has a value |
| LambdaApi.Handler | server/src/lib.rs:102-114 | fails with `MissingPlaylistId` iff the parameter is absent; otherwise a page error passes through, or the reply is `ID: <id>!` with the projected items |
| StoreModel.FitsBelowMeans | server/core/src/model.rs:25-38 | the recursive check means every schema column below the bound holds a cell of its type |
| StoreModel.DecodeRecord | server/core/src/model.rs:22-38 | row decoding succeeds iff every column but 7 has its type; a failed thumbnail read gives `None`, never an error |
| StoreModel.DecodeItem | server/core/src/model.rs:55-71 | row decoding succeeds iff cells 0 and 2..9 have their types; cell 1 is not read |
| StoreModel.DecodeItemSkipsPlaylistId | server/core/src/model.rs:61 | changing cell 1 (`playlist_id`) never changes the decoded item |
| StoreModel.ItemEq | server/core/src/model.rs:74-78 | `PartialEq`: items are equal when their video ids are; `StoreModel.ItemEqIsEquivalence` states that it is an equivalence |
| StoreModel.ItemHash | server/core/src/model.rs:82-86 | `Hash`: only the video id is hashed; `StoreModel.ItemEqIsEquivalence` states that equal items hash alike |
| StoreModel.ItemEqIsEquivalence | server/core/src/model.rs:74-86 | equality is by `video_id` and is an equivalence, and equal items hash equally |
| ServerRecords.Coalesce | server/src/index.ts:15-25 | `a ?? b` is nullish iff both are, and is `a` when `a` is not |
| ServerRecords.BuildBody | server/src/index.ts:13-26 | `published_at` is always a date; a missing description becomes ""; the thumbnail is the standard URL, else the medium URL, else "" |
| ServerRecords.IsComplete | server/src/index.ts:14-25 | the playlist has every part the record cannot default: id, channel id, channel title, title, privacy status and item count; `ServerRecords.RecordResponseBody` states that it decides null |
| ServerRecords.RecordResponseBody | server/src/index.ts:12-28 | never undefined; null exactly when some field of the built object is nullish, and otherwise that object |
| ServerRecords.MissingItemCountIsNull | server/src/index.ts:25-27 | a missing `itemCount` makes the result null |
| ServerRecords.OptionalPartsNeverNull | server/src/index.ts:15-24 | whatever `publishedAt`, `description` and `thumbnails` are, they never decide whether the result is null |
| RootRecords.RecordsProvider.AddRecord | client/src/routes/__root.tsx:24-28 | `record` is stored under its `playlist_id`, overwriting any old value, and every other key is unchanged |
| RootRecords.RecordsProvider.RemoveRecord | client/src/routes/__root.tsx:29-34 | the `for...in` copy leaves a new map without `id` and with every other key and value, equal to the old map when `id` is absent |
| RootRecords.KeyNotYetCopied | client/src/routes/__root.tsx:31 | with distinct keys, a key about to be copied is not already in the copy |

## Left out

- The PQL expression language is not part of this model. It is unfinished and walks a foreign parser's syntax tree.
- Random operations are left out: RandomSelect, SortBy and Randomize have no evaluator in this `fior.ts`, and the seeded generator is not part of this model. `FiorModel` still holds their data, so the editors can create them.
  - A new RandomSelect filter has empty `cols`, so it returns its input.
  - Order rows return their input, as the code does.
- Regular expressions are an oracle (`RegexEngine`) with `compiles` and `test` fields. The model does not give JavaScript `RegExp` semantics.
- The `/\D+/g` replacement is written out directly.
- Dates are opaque values:
  - JavaScript `Date` objects are `Moment`, always truthy, with their `toString` text supplied;
  - chrono datetimes are `DateTime`;
  - `new Date(...)` is `JsDate`.
  - Date arithmetic and formatting are left out.
- The `iso8601-duration` parser is not part of this model. `displayDuration` takes its output as a `Clock` whose parts may be missing. A failed parse in `ItemRow` is left out.
- Floating point is left out. `parseInt` gives exact integers, and JavaScript numbers are `NaN`, a real, or an infinity. Precision loss for more than 2^53 is not modelled.
- Storage and network are parameters or left out:
  - The YouTube fetch is a parameter `fetch: Option<token> -> Result<page>`.
  - Postgres, Dexie, localStorage, the Hono and axum routes and the `println!` are left out. The lambda `handler`'s items are returned with its reply, where the source prints them.
- Page collection also assumes that the server's chain of page tokens ends. That assumption is the `ChainEnds` precondition with a ghost bound. A chain that never ends, where the source would loop forever, is not modelled.
- `YouTubeClient.GetItems`: the `HashSet` is a sequence that keeps the first item seen per `video_id`, in page order. Hash-set iteration order is not modelled.
- Object key order for integer-like keys is left out. JavaScript lists those keys first, in numeric order. The ids here are UUIDs and catalogue names.
- `PlItemData` and `PlItemKeys` come from a version of `client/src/lib/fior.ts` that is not part of this model. The catalogue order and the kind of each key follow the item fields, `index` first.
- React state, rendering, context, routing and debounced saving are left out. Each editor class keeps the component state its actions read and write (`rows`, `playlists`, `cols`, the shown value, the count text, and the row menu's `rowItem` as `RowEditor.RowMenu.state`).
- The other UI-only parts are left out too:
  - the search row's regex status indicator;
  - the check row's `filteredCols` label;
  - the "Play" link;
  - the operator and value inputs of a check row, whose predicate is a stub.
- RowEditor.DurationRoundTrip: proved for digit-only parts with a non-empty minutes part, the values the time field itself produces; other stored check values are not characterised.

## Findings

| source | as written | input that shows it | evidently intended | confidence | as-written member | corrected member |
|---|---|---|---|---|---|---|
| client/src/page/fior/column.tsx:129-133, client/src/page/fior.tsx:593-600, client/src/lib/fior.ts:116 | a new "+Check" row has `cols: undefined`, and `rowQuery` reads `filter.cols.length`, which throws a TypeError while the column is evaluated | a column holding one freshly added "+Check" row, evaluated on any playlist | a check row with no keys chosen is a no-op, like empty `cols` | not executed | FiorQuery.RowQueryAsWritten (ColumnEditor.NewCheckRowThrows) | FiorQuery.RowQuery |
| client/src/page/fior.tsx:723-732 | the numeric suffixes are sorted with the default `toSorted`, which compares their decimal text, so `findIndex((n, i) => n !== i)` can stop at a number still in use | columns named fior-0, fior-1, fior-2 and fior-10: suffixes sort as [0, 1, 10, 2], the first mismatch is position 2, and the new column is named fior-2 again | the new name never clashes with an existing one: the least number below the count of `fior-<n>` columns that none uses, else, as the source already does, the number of columns (numbers compared as numbers, so fior-0, fior-1, fior-2, fior-10 gives fior-3) | not executed | LivePage.NewColumnNumberAsWritten (LivePage.NewColumnNameClash) | LivePage.NewColumnNumber (LivePage.NewColumnNameFresh, LivePage.NewColumnNumberChoice, LivePage.NoGapAgrees) |
| server/core/src/youtube.rs:33-41, server/src/lib.rs:64-75 | the `while let Some(next) = res.next_page_token` loop pushes a page only when it names a next page, so the final page is fetched and never pushed | a playlist whose first page has no `next_page_token`: `get_items`, and the lambda's `handler`, return no item at all | every page of the chain is kept, the final one included | not executed | YouTubeClient.OnePagePlaylistYieldsNothing (Paging.OnePageKeepsNothing, Paging.PagesDropFinal) | Paging.CollectAllPages (YouTubeClient.MissedItems) |
| client/src/page/fior/row.tsx:465-469, client/src/page/fior/row.tsx:559-563, client/src/page/fior/column.tsx:290 | `reloadRow` stores `rowItem` in the document and keeps `{ ...rowItem }` as the new state; the copy has its own `index`, the component survives a delete (`key={row}`), and the delete renumbers only the document's objects, so the next flag click stores the copy's old `index` | rows a, b, c with index 0, 1, 2: "Exclude" on c, "Delete..." on a (c renumbered to 1), "Exclude" on c again: c is stored with index 2, and a later "+Filter" row gets index 2 as well | a flag click changes only that flag of the document's current row and keeps its `index` | not executed | RowEditor.MenuClick (RowEditor.StaleIndexReturns, RowEditor.RowMenu.Click) | RowEditor.ApplyItem (RowEditor.FlipsChangeOneField) |

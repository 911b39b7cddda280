# Prompt manager popup — a verified model of its prompt list

The popup of this browser extension keeps one ordered list of saved prompts,
each a record `{id, title, content, createdAt}`. It shows the list filtered
by a search box. Its event handlers change the list in small steps:

- the add form validates the trimmed title and content, then puts a new
  record in front;
- the edit and delete buttons remove a record by id. Edit first copies the
  record back into the form, and delete asks for confirmation;
- import puts a parsed file's records in front of the list;
- drag and drop moves a record. The drag positions are positions in the
  filtered view, and they are resolved to positions in the full list by
  looking up ids.

After each change the list is saved to extension storage.

The model has four modules:

- `Strings` (`strings.dfy`) states JavaScript's `trim`, `toLowerCase` and
  `includes` over `seq<char>`.
- `PromptList` (`prompt_list.dfy`) holds the record type and the
  side-effect-free list operations: `filter` (as `Select`), the search
  filter `Filter`, `findIndex`/`find` by id, removal by id, and one-element
  `splice` (`RemoveAt`, `InsertAt`).
- `Reorder` (`reorder.dfy`) holds the two-splice move `Move`. It turns view
  positions into list positions (`RealIndex`), and its `ReorderList` is the
  list `reorderPrompts` leaves behind. Its main theorem, `ReorderVisible`,
  says this: when ids are unique, the filtered view after a reorder is the
  old view with the dragged row moved to the drop row. Uniqueness holds in
  any session of adds with fresh ids, edits, deletes, reorders and drops.
- `Popup` (`popup.dfy`) holds the class `PopupState`. Its fields are the
  `prompts` list, the two form inputs, the search box, the stored value and
  the two drag variables. It has one method per handler, and each method
  states the whole new state.

Values the handlers read from the browser are parameters of the methods:

- the `Date.now()` id and the `toISOString()` timestamp;
- the answer to `confirm`;
- the outcome of `JSON.parse`, as an `Option`.

Storage is a field, `stored`, which every saving handler sets to the new
list. The invariant `Valid()` says that reloading from `stored` gives back
`prompts`.

Where the code is more specific than a plain reading of its purpose, the
model follows the code:

- Edit and delete keep every record whose id differs from the target, so
  they remove *all* records sharing that id, not just the first one.
  `RemoveIdSpec` states this, and `RemoveIdUnique` gives the
  single-removal reading when ids are unique.
- The move in `reorderPrompts` computes the insert position before the
  removal. Dragging a row down onto a later row therefore puts it right
  after that row (`MoveDown`). Dragging up puts it right before the row
  (`MoveUp`).
- The id lookup assumes that ids are unique, and imports do not keep them
  so. Importing the same file twice prepends exact copies of its records.
  The id lookup then resolves a row showing the second copy to the first
  copy. `ImportedTwice` exhibits such a drag, where the list ends up
  different from the intended move of the view.
- Distinct records that share an id can come from files of different
  origin or from a hand-edited file. Then the lookup can resolve a visible
  row to a hidden record. `ReorderCollidingIds` exhibits a drag that moves
  the hidden record and leaves the view unchanged.

## Model

| member | source | states |
|---|---|---|
| Strings.Trim | popup.js:20-21 | the trimmed string is no longer than the input and neither starts nor ends with white space |
| Strings.TrimSpec | popup.js:20-21 | the trimmed string is a contiguous slice of the input, and what is cut away on either side is all white space |
| Strings.TrimEmptyIff | popup.js:20-26 | a field trims to the empty string exactly when it is white space only, which is when the add form is rejected |
| Strings.Contains | popup.js:96-97 | `includes`: the empty term is in every string, and a term longer than the string is not in it. `ContainsIff` states it exactly |
| Strings.Lower | popup.js:94 | lower-casing keeps the length, maps each character on its own and leaves no upper-case letter |
| Strings.LowerIdempotent | popup.js:94-97 | lower-casing an already lower-cased term changes nothing |
| Strings.ContainsIff | popup.js:96-97 | `includes` holds exactly when the term occurs at some offset of the string |
| PromptList.Select | popup.js:95-98 | `filter` never returns more elements than it was given |
| PromptList.SelectCount | popup.js:95-98 | `filter` keeps each accepted element as often as the input holds it, and drops every rejected one |
| PromptList.SelectMembers | popup.js:95-98 | an element survives `filter` exactly when it is in the input and accepted |
| PromptList.SelectIsSubsequence | popup.js:95-98 | `filter` keeps the survivors in their original order |
| PromptList.Matches | popup.js:94-97 | the test each record passes to be shown. An empty lower-cased term matches every record |
| PromptList.Filter | popup.js:94-98 | the view is no longer than the list. Its contents are stated by `FilterSpec` |
| PromptList.FilterSpec | popup.js:94-98 | the view holds exactly the records whose lower-cased title or content includes the lower-cased term, with their multiplicities, in list order |
| PromptList.FilterEmptyTerm | popup.js:94-98 | an empty search term shows the whole list |
| PromptList.FilterCaseInsensitive | popup.js:94-98 | searching for a term and for its lower-cased form shows the same view |
| PromptList.FilterConcat | popup.js:229-233 | the view of two joined lists is the joined views |
| PromptList.FilterSplit | popup.js:229-233 | the view cuts into the view before a position, that record when it matches, and the view after it |
| PromptList.FindIndex | popup.js:240-241 | `findIndex` by id gives -1 exactly when no record has the id, and otherwise the first position holding it |
| PromptList.Find | popup.js:126-127 | `find` by id gives nothing exactly when no record has the id, and otherwise the first record holding it |
| PromptList.RemoveId | popup.js:133 | removal by id never lengthens the list. Its contents are stated by `RemoveIdSpec` |
| PromptList.RemoveIdSpec | popup.js:133 | removal by id keeps exactly the records with another id, in order, so no record with the id is left |
| PromptList.RemoveIdAbsent | popup.js:146 | removing an id the list does not hold changes nothing |
| PromptList.RemoveIdUnique | popup.js:146 | with unique ids, removing a present id takes out the one record at its position and shortens the list by one |
| PromptList.RemoveIdKeepsUnique | popup.js:133 | removal by id keeps ids distinct |
| PromptList.PrependFreshKeepsUnique | popup.js:28-35 | a new record whose id the list does not hold keeps ids distinct |
| PromptList.RemoveAt | popup.js:244 | `splice(i, 1)` shortens the list by one |
| PromptList.RemoveAtSpec | popup.js:244 | `splice(i, 1)` keeps the elements before `i` in place and shifts the ones after it down by one |
| PromptList.InsertAt | popup.js:245 | `splice(i, 0, x)` lengthens the list by one |
| PromptList.InsertAtSpec | popup.js:245 | `splice(i, 0, x)` puts `x` at `i`, and taking it out again gives back the list |
| PromptList.InsertRemoved | popup.js:244-245 | putting a removed element back at its own position restores the list |
| Reorder.Move | popup.js:244-249 | the two splices keep the length |
| Reorder.MoveSpec | popup.js:244-249 | the two splices put the moved element at the target, and leave every other element in its relative order: taking it out again gives the list with the source taken out |
| Reorder.MovePermutes | popup.js:244-249 | the two splices give a permutation of the list |
| Reorder.MoveKeepsUnique | popup.js:244-249 | a move keeps ids distinct |
| Reorder.MoveInPlace | popup.js:248-249 | moving a record onto its own position changes nothing |
| Reorder.MoveDown | popup.js:244-245 | because the insert position is taken before the removal, a record moved down lands right after the target |
| Reorder.MoveUp | popup.js:244-245 | a record moved up lands right before the target |
| Reorder.MoveFiltered | popup.js:227-250 | moving a matching record between two matching positions moves it within the view, from and to the counts of matches before each position |
| Reorder.RealIndex | popup.js:236-241 | a view position resolves to a list position holding the same id. With a search term it is the first such position, and with none it is the view position itself |
| Reorder.ReorderList | popup.js:227-250 | a reorder keeps the records. The record at the resolved source lands at the resolved target and the others keep their order; with no search term these are the view positions |
| Reorder.RealIndexPosition | popup.js:236-241 | with unique ids the resolved position holds the very record the view shows, with exactly that many matches before it |
| Reorder.ReorderVisible | popup.js:227-255 | with unique ids, the view after a reorder is the old view with the dragged row moved to the drop row |
| Reorder.ReorderExample | popup.js:236-245 | `[A,B,C,D]` searched for "A" shows `[A,C]`, A by its title and C by its content. Dragging A onto C gives `[B,C,A,D]`, while applying view positions to the full list would give `[B,A,C,D]` |
| Reorder.ReorderSkipsHidden | popup.js:236-245 | dragging the first of two visible records onto the second, over a hidden record, puts it right after the second |
| Reorder.ReorderCollidingIds | popup.js:240-245 | with a hidden record sharing the dragged record's id, the hidden one is moved and the view stays as it was |
| Reorder.ImportedTwice | popup.js:236-249 | with the same file imported twice, every record of the list is shown, and dragging the second copy of `r` onto the second copy of `c` moves the first copies. The list becomes `[c, r, r, c]`, while the intended move of the view is `[r, c, c, r]` |
| Reorder.HiddenSharedId | popup.js:236-245 | for any term and records where a hidden record precedes a visible one with the same id, both views are the two visible records, the drag moves the hidden one, and the view differs from the intended move |
| Reorder.ReorderSharedId | popup.js:240-245 | the id lookup resolves a visible record to an earlier hidden record with the same id, and the two splices move that one |
| Popup.PopupState.constructor | popup.js:12-16 | the loaded list is what storage held, or empty when nothing was saved; no drag is in progress |
| Popup.Load | popup.js:14 | the saved list, or the empty list when nothing was saved. The constructor's contract states it |
| Popup.PopupState.Visible | popup.js:94-98 | the shown rows are never more than the list, and while the search box is empty they are the whole list |
| Popup.PopupState.AddPrompt | popup.js:19-39 | a white-space-only field leaves everything unchanged. Otherwise the record with the trimmed fields is at index 0, the old list follows as `prompts[1..]`, the list is saved and the form cleared. A fresh id keeps ids distinct |
| Popup.PopupState.Search | popup.js:42-44 | typing in the search box changes only the view, never the list |
| Popup.PopupState.OnAction | popup.js:118-152 | an id not in the list changes nothing. Edit puts the first matching record into the form and removes every record with the id. Copy hands over the content and changes nothing. Delete removes only when confirmed. Ids stay distinct |
| Popup.PopupState.Import | popup.js:66-75 | a parsed file gives `imported + old` and is saved; a parse failure changes nothing |
| Popup.PopupState.Reorder | popup.js:227-255 | the list becomes `ReorderList` of the old list and is saved. With unique ids, ids stay distinct and the view is the old view with the row moved |
| Popup.PopupState.DragStart | popup.js:171-177 | the drag state records the dragged row and its index |
| Popup.PopupState.DragEnd | popup.js:180-189 | the drag state returns to idle: no item and index -1 |
| Popup.PopupState.Drop | popup.js:214-222 | the list is reordered only while a drag is in progress onto a different row. Otherwise the list and storage are unchanged. With unique ids, ids stay distinct and the view is the old view with the dragged row moved |

## Left out

- `chrome.storage.local` is asynchronous. It is modelled as the field `stored`, which is set synchronously when the list is saved.
- The storage read on load is modelled by the constructor. A handler firing before the read completes is not modelled.
- DOM rendering is not modelled. This covers `innerHTML`, the row template and `escapeHtml`, and the CSS classes toggled by the drag listeners, including the `dragenter`, `dragover` and `dragleave` handlers, which only change styling.
- The clipboard write and its `alert` are not modelled. Copy returns the text it would write.
- `alert` on a rejected form or a failed import is not modelled; the methods return a flag instead.
- `confirm` is a boolean parameter.
- Export (`JSON.stringify`, `Blob`, the object URL and the download link) is not modelled. `FileReader` and the file input are not modelled either.
- The `JSON.parse` outcome is a parameter, so the export-then-import round trip is not stated.
- Import: imported records are taken to be well-formed `Prompt` values. In the source, the `try` block also covers rendering. A record without a string title makes the render throw after the list was already replaced and saved, and the user then sees the import failure message. This case is not modelled.
- `Date.now()` and `toISOString()` are parameters of `AddPrompt`. Whether two adds within one millisecond collide depends on the clock and is not modelled. `AddPrompt` keeps ids distinct only when the given id is fresh.
- `parseInt` of the row's `data-id` is not modelled. Ids are integers throughout.
- Strings.Lower: covers only the ASCII letters A to Z, not the full Unicode case mapping of `toLowerCase`.
- Popup.PopupState.DragStart: a rendered row is its position in the view, so `draggedItem` is a row index, not a DOM element. The drop guard compares rows by index, which matches comparing the distinct row elements.
- Popup.PopupState.Drop: requires the recorded drag index to still be a row of the view. A re-render between `dragstart` and `drop` that shrinks the view is not modelled.
- Popup.PopupState.Reorder: requires both view positions in range. The source's drop handler supplies only rendered rows, and out-of-range positions (where `filteredPrompts[i]` is `undefined`) are not modelled.

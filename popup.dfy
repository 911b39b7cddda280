/** The popup's state and its event handlers: the `prompts` list, the title
    and content inputs, the search box, the value kept in extension storage
    and the drag state, each changed the way the handlers change them. */
module Popup {
  import opened Strings
  import opened PromptList
  import opened Reorder

  /** The `data-action` of the three buttons of a row. */
  datatype Action = Edit | Copy | Delete

  /** `result.prompts || []`: the list a load starts from. */
  function Load(saved: Option<seq<Prompt>>): seq<Prompt> {
    match saved
    case Some(ps) => ps
    case None => []
  }

  class PopupState {
    /** The module-level `prompts` array. */
    var prompts: seq<Prompt>
    /** The values of the title input, the content input and the search box. */
    var titleInput: string
    var promptInput: string
    var searchInput: string
    /** What `chrome.storage.local` holds under the key `prompts`. */
    var stored: Option<seq<Prompt>>
    /** `draggedItem`, as the position of the dragged row (None for null),
        and `draggedIndex`, -1 when no drag is in progress. */
    var draggedItem: Option<nat>
    var draggedIndex: int

    /** Every handler saves the list it leaves behind, so a reload would
        restore it; the two drag variables are idle together or agree. */
    ghost predicate Valid()
      reads this
    {
      Load(stored) == prompts
      && (draggedItem.None? <==> draggedIndex == -1)
      && (draggedItem.Some? ==> draggedIndex == draggedItem.value)
    }

    /** The rows `renderPromptList` shows: some of the list, and all of it
        while the search box is empty. */
    function Visible(): (r: seq<Prompt>)
      reads this
      ensures |r| <= |prompts|
      ensures Lower(searchInput) == [] ==> r == prompts
    {
      if Lower(searchInput) == [] then
        FilterEmptyTerm(prompts, searchInput);
        Filter(prompts, searchInput)
      else
        Filter(prompts, searchInput)
    }

    /** The popup after the storage read of `DOMContentLoaded` completed. */
    constructor (saved: Option<seq<Prompt>>)
      ensures Valid()
      ensures prompts == Load(saved) && stored == saved
      ensures titleInput == [] && promptInput == [] && searchInput == []
      ensures draggedItem.None?
    {
      prompts := Load(saved);
      stored := saved;
      titleInput, promptInput, searchInput := [], [], [];
      draggedItem, draggedIndex := None, -1;
    }

    /** The add button. `now` and `createdAt` stand for `Date.now()` and
        `new Date().toISOString()`. A field that trims to nothing rejects the
        form and changes nothing; otherwise the trimmed record goes in front
        of the list, the list is saved and the form cleared. */
    method AddPrompt(now: int, createdAt: string) returns (added: bool)
      requires Valid()
      modifies this
      ensures Valid()
      ensures added <==> Trim(old(titleInput)) != [] && Trim(old(promptInput)) != []
      ensures added ==> prompts == [Prompt(now, Trim(old(titleInput)), Trim(old(promptInput)), createdAt)] + old(prompts)
      ensures added ==> |prompts| == |old(prompts)| + 1 && prompts[1..] == old(prompts)
      ensures added ==> titleInput == [] && promptInput == []
      ensures !added ==> prompts == old(prompts) && stored == old(stored)
      ensures !added ==> titleInput == old(titleInput) && promptInput == old(promptInput)
      ensures UniqueIds(old(prompts)) && FindIndex(old(prompts), now) == -1 ==> UniqueIds(prompts)
      ensures searchInput == old(searchInput)
      ensures draggedItem == old(draggedItem) && draggedIndex == old(draggedIndex)
    {
      var title := Trim(titleInput);
      var content := Trim(promptInput);
      if title == [] || content == [] {
        return false;
      }
      var prompt := Prompt(now, title, content, createdAt);
      if UniqueIds(prompts) && FindIndex(prompts, now) == -1 {
        PrependFreshKeepsUnique(prompt, prompts);
      }
      prompts := [prompt] + prompts;
      stored := Some(prompts);
      titleInput, promptInput := [], [];
      added := true;
    }

    /** Typing in the search box: only the view changes, never the list. */
    method Search(term: string)
      requires Valid()
      modifies this`searchInput
      ensures Valid()
      ensures searchInput == term && Visible() == Filter(prompts, term)
    {
      searchInput := term;
    }

    /** A click on a row's button. A stale id changes nothing. Edit copies
        the first record with the id into the inputs and removes every record
        with the id; Copy hands the content to the clipboard; Delete removes
        every record with the id once the user confirms. */
    method OnAction(id: int, action: Action, confirmed: bool) returns (copied: Option<string>)
      requires Valid()
      modifies this
      ensures Valid()
      ensures Find(old(prompts), id).None? ==>
                prompts == old(prompts) && stored == old(stored) && copied.None?
                && titleInput == old(titleInput) && promptInput == old(promptInput)
      ensures Find(old(prompts), id).Some? && action == Edit ==>
                titleInput == Find(old(prompts), id).value.title
                && promptInput == Find(old(prompts), id).value.content
                && prompts == RemoveId(old(prompts), id) && copied.None?
      ensures Find(old(prompts), id).Some? && action == Copy ==>
                copied == Some(Find(old(prompts), id).value.content)
                && prompts == old(prompts) && stored == old(stored)
      ensures Find(old(prompts), id).Some? && action == Delete ==>
                prompts == (if confirmed then RemoveId(old(prompts), id) else old(prompts))
                && (!confirmed ==> stored == old(stored)) && copied.None?
      ensures action != Edit ==> titleInput == old(titleInput) && promptInput == old(promptInput)
      ensures UniqueIds(old(prompts)) ==> UniqueIds(prompts)
      ensures searchInput == old(searchInput)
      ensures draggedItem == old(draggedItem) && draggedIndex == old(draggedIndex)
    {
      if UniqueIds(prompts) {
        RemoveIdKeepsUnique(prompts, id);
      }
      var prompt := Find(prompts, id);
      if prompt.None? {
        return None;
      }
      copied := None;
      match action
      case Edit =>
        titleInput, promptInput := prompt.value.title, prompt.value.content;
        prompts := RemoveId(prompts, id);
        stored := Some(prompts);
      case Copy =>
        copied := Some(prompt.value.content);
      case Delete =>
        if confirmed {
          prompts := RemoveId(prompts, id);
          stored := Some(prompts);
        }
    }

    /** The `onload` of an imported file. `parsed` is the outcome of
        `JSON.parse`: on failure nothing changes; otherwise the imported
        records go in front of the list and the list is saved. */
    method Import(parsed: Option<seq<Prompt>>) returns (ok: bool)
      requires Valid()
      modifies this
      ensures Valid()
      ensures ok == parsed.Some?
      ensures ok ==> prompts == parsed.value + old(prompts)
      ensures !ok ==> prompts == old(prompts) && stored == old(stored)
      ensures titleInput == old(titleInput) && promptInput == old(promptInput)
      ensures searchInput == old(searchInput)
      ensures draggedItem == old(draggedItem) && draggedIndex == old(draggedIndex)
    {
      match parsed
      case None =>
        ok := false;
      case Some(imported) =>
        prompts := imported + prompts;
        stored := Some(prompts);
        ok := true;
    }

    /** `reorderPrompts(fromIndex, toIndex)`, both positions of the rows on
        screen: with a search term they are resolved to list positions by
        id, then the record is spliced out and back in, and the list saved. */
    method Reorder(fromIndex: nat, toIndex: nat)
      requires Valid()
      requires fromIndex < |Visible()| && toIndex < |Visible()|
      modifies this`prompts, this`stored
      ensures Valid()
      ensures prompts == ReorderList(old(prompts), searchInput, fromIndex, toIndex)
      ensures UniqueIds(old(prompts)) ==>
                UniqueIds(prompts) && Visible() == Move(old(Visible()), fromIndex, toIndex)
    {
      ghost var ps := prompts;
      var searchTerm := Lower(searchInput);
      if searchTerm != [] {
        var filtered := Filter(prompts, searchInput);
        var movedPrompt := filtered[fromIndex];
        var targetPrompt := filtered[toIndex];
        var realFromIndex := FindIndex(prompts, movedPrompt.id);
        var realToIndex := FindIndex(prompts, targetPrompt.id);
        assert realFromIndex == RealIndex(ps, searchInput, fromIndex);
        assert realToIndex == RealIndex(ps, searchInput, toIndex);
        ReorderAt(ps, searchInput, fromIndex, toIndex, realFromIndex, realToIndex);
        var removed := prompts[realFromIndex];
        prompts := RemoveAt(prompts, realFromIndex);
        prompts := InsertAt(prompts, realToIndex, removed);
        assert prompts == Move(ps, realFromIndex, realToIndex);
        assert prompts == ReorderList(ps, searchInput, fromIndex, toIndex);
      } else {
        FilterEmptyTerm(prompts, searchInput);
        ReorderAt(ps, searchInput, fromIndex, toIndex, fromIndex, toIndex);
        var removed := prompts[fromIndex];
        prompts := RemoveAt(prompts, fromIndex);
        prompts := InsertAt(prompts, toIndex, removed);
        assert prompts == Move(ps, fromIndex, toIndex);
        assert prompts == ReorderList(ps, searchInput, fromIndex, toIndex);
      }
      if UniqueIds(ps) {
        ReorderVisible(ps, searchInput, fromIndex, toIndex);
        MoveKeepsUnique(ps, RealIndex(ps, searchInput, fromIndex), RealIndex(ps, searchInput, toIndex));
      }
      stored := Some(prompts);
    }

    /** `dragstart` on the row at `row`. */
    method DragStart(row: nat)
      requires Valid() && row < |Visible()|
      modifies this`draggedItem, this`draggedIndex
      ensures Valid()
      ensures draggedItem == Some(row) && draggedIndex == row
    {
      draggedItem := Some(row);
      draggedIndex := row;
    }

    /** `dragend`: the drag state goes back to idle. */
    method DragEnd()
      requires Valid()
      modifies this`draggedItem, this`draggedIndex
      ensures Valid()
      ensures draggedItem.None? && draggedIndex == -1
    {
      draggedItem := None;
      draggedIndex := -1;
    }

    /** `drop` on the row at `row`: the list is reordered only while a drag
        is in progress and the row is not the dragged one. The drag itself
        ends with `dragend`, not here. */
    method Drop(row: nat)
      requires Valid() && row < |Visible()|
      requires draggedItem.Some? ==> draggedIndex < |Visible()|
      modifies this`prompts, this`stored
      ensures Valid()
      ensures old(draggedItem).Some? && old(draggedItem) != Some(row) ==>
                prompts == ReorderList(old(prompts), searchInput, draggedIndex, row)
                && (UniqueIds(old(prompts)) ==> Visible() == Move(old(Visible()), draggedIndex, row))
      ensures UniqueIds(old(prompts)) ==> UniqueIds(prompts)
      ensures !(old(draggedItem).Some? && old(draggedItem) != Some(row)) ==>
                prompts == old(prompts) && stored == old(stored)
    {
      if draggedItem.Some? && draggedItem != Some(row) {
        var currentIndex := row;
        Reorder(draggedIndex, currentIndex);
      }
    }
  }
}

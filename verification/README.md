# Ticket board: a Dafny model

This project models the pure logic of the Kanban ticket board component of
`src/app/components/ticket-board/ticket-board.component.ts`. On one side are
the two record shapes, `Ticket` and `TicketList`. On the other are the
component's handlers, each written as a pure transition:

- `loadData` groups the store's tickets by list and sorts each group by `order`;
- `toggleAddForm` opens or closes a list's inline add form;
- `addTicket` validates and trims the draft, computes the append-at-end
  `order`, and resets the form;
- `deleteTicket` ignores a ticket that has no id;
- `drop` resolves the containers to list ids and builds the id sequences
  sent for a reorder.

A handler takes a `Board` (the component's state) and its input. It returns
a `Step`: the next state and the requests it sends to the store, in the
order it awaits them. `Reload` stands for `await this.loadData()`. The effect
of a reload is `LoadData`, applied to the lists and tickets the store returns.

Modules:

| file | module | contents |
|---|---|---|
| `optional.dfy` | `Optional` | `Option`, standing for `T \| undefined` |
| `ticket_model.dfy` | `TicketModel` | `Ticket`, `NewTicket` (a ticket without its id), `TicketList` |
| `js_text.dfy` | `JsText` | `String.prototype.trim` over the ECMAScript white-space and line-terminator code points |
| `grouping.dfy` | `Grouping` | the filter, the sort by `order` and the per-list map of `loadData` |
| `drop_targets.dfy` | `DropTargets` | `getListIds`, `indexOf`, container-to-list resolution, the id payload |
| `ticket_board.dfy` | `TicketBoard` | the state, the requests and the five handlers |

In a move between lists, the move call and both reorder calls happen only
when the dragged ticket has an id (lines 116-127). Otherwise only the reload
follows.

The description of a new ticket is `description?.trim() || ''` in the source.
The model uses the trimmed draft when there is one and `''` otherwise. The
two agree, because a trim that leaves nothing is already `''`.

## Model

| member | source | states |
|---|---|---|
| `JsText.LeadingWhiteSpace` | src/app/components/ticket-board/ticket-board.component.ts:62 | the count is at most the length, every character it covers is white space, and the character after them (if any) is not |
| `JsText.TrailingWhiteSpace` | src/app/components/ticket-board/ticket-board.component.ts:62 | the count is at most the length, every character it covers at the end is white space, and the character before them (if any) is not |
| `JsText.Trim` | src/app/components/ticket-board/ticket-board.component.ts:62-63 | the result is an infix of the input with only white space outside it; it is empty exactly when the input is all white space; otherwise both its ends are not white space |
| `JsText.TrimIdempotent` | src/app/components/ticket-board/ticket-board.component.ts:62-63 | trimming twice gives the same string as trimming once |
| `Grouping.InList` | src/app/components/ticket-board/ticket-board.component.ts:42-43 | the filter holds every ticket of the given list exactly as often as the store holds it, and no ticket of another list |
| `Grouping.Insert` | src/app/components/ticket-board/ticket-board.component.ts:44 | inserting into a list sorted by `order` keeps it sorted and adds exactly that one ticket |
| `Grouping.SortByOrder` | src/app/components/ticket-board/ticket-board.component.ts:44 | the result is sorted non-decreasing by `order` and is a permutation of the input |
| `Grouping.EqualOrdersKeepStoreOrder` | src/app/components/ticket-board/ticket-board.component.ts:44 | when every ticket has the same `order`, the sort returns them in the store's order, as a stable sort does |
| `Grouping.Group` | src/app/components/ticket-board/ticket-board.component.ts:40-45 | the keys are exactly the ids of the lists; every entry is sorted by `order` and is a permutation of that list's filtered tickets |
| `Grouping.GroupHoldsExactlyListTickets` | src/app/components/ticket-board/ticket-board.component.ts:41-43 | for every list, its group has an entry, and that entry holds each ticket whose `listId` names the list as often as the store does, and no other ticket |
| `Grouping.OrphanInNoGroup` | src/app/components/ticket-board/ticket-board.component.ts:40-45 | a ticket whose `listId` names no list appears in no group |
| `Grouping.GroupSizeIsListCount` | src/app/components/ticket-board/ticket-board.component.ts:41-44 | each group is exactly as long as the number of the store's tickets in that list |
| `Grouping.GroupAfterAppend` | src/app/components/ticket-board/ticket-board.component.ts:40-45 | once the store has gained one ticket, that ticket's list's group gains exactly it, and every other group keeps its contents and length |
| `Grouping.InListAfterAppend` | src/app/components/ticket-board/ticket-board.component.ts:42-43 | the filter of a store that gained a ticket is the old filter plus that ticket when it belongs to the list |
| `DropTargets.ListIds` | src/app/components/ticket-board/ticket-board.component.ts:49-51 | one id per list, in list order, each the id of the list at that position |
| `DropTargets.IndexOf` | src/app/components/ticket-board/ticket-board.component.ts:96 | the result is -1 exactly when the value is absent; otherwise it is the first position holding it |
| `DropTargets.ResolveListId` | src/app/components/ticket-board/ticket-board.component.ts:96 | the container id when some list carries it, undefined exactly when none does |
| `DropTargets.Ids` | src/app/components/ticket-board/ticket-board.component.ts:103 | the payload has one entry per ticket, and position `i` holds the id (possibly undefined) of the ticket at position `i` |
| `DropTargets.IdsAppend` | src/app/components/ticket-board/ticket-board.component.ts:121-125 | the payload of two arrays joined is the two payloads joined |
| `DropTargets.IdsOfPermutation` | src/app/components/ticket-board/ticket-board.component.ts:103 | two arrays holding the same tickets in any order give payloads holding the same ids, each as often |
| `TicketBoard.LoadData` | src/app/components/ticket-board/ticket-board.component.ts:33-47 | after a reload the lists are the store's lists, the view matches the store (one entry per list id, each sorted and holding exactly that list's tickets), and the add-form maps are untouched |
| `TicketBoard.InitialShowsNothing` | src/app/components/ticket-board/ticket-board.component.ts:20-24 | the starting state shows no form and no group, agrees with an empty store, and an add from it changes nothing and sends nothing |
| `TicketBoard.ToggleAddForm` | src/app/components/ticket-board/ticket-board.component.ts:53-59 | the flag is written and negated, with a missing flag read as closed; closing empties both drafts of that list, opening leaves the drafts alone; no other list's entries change; lists and view are untouched |
| `TicketBoard.ToggleTwice` | src/app/components/ticket-board/ticket-board.component.ts:53-59 | two toggles restore the open/closed state and leave both drafts of the list empty |
| `TicketBoard.PrepareTicket` | src/app/components/ticket-board/ticket-board.component.ts:62-78 | no ticket exactly when the title draft is missing or made only of white space. Otherwise the ticket has the trimmed, non-empty title; the trimmed description, or `''` when there is none; the list id; the current size of the list's view entry as `order` (0 when it has none); and the given timestamp |
| `TicketBoard.ResetDraft` | src/app/components/ticket-board/ticket-board.component.ts:83-85 | that list's drafts become `''` and its form closes; every other list's entries, the lists and the view are unchanged |
| `TicketBoard.AddTicket` | src/app/components/ticket-board/ticket-board.component.ts:61-86 | a blank title changes no state and sends nothing; otherwise it sends the prepared ticket and then a reload, resets that list's drafts and form, leaves every other list's entries unchanged, and leaves the lists and the view as they were |
| `TicketBoard.ResetCommutesWithReload` | src/app/components/ticket-board/ticket-board.component.ts:80-85 | resetting the drafts after the reload gives the same state as resetting before it |
| `TicketBoard.WhiteSpaceTitleRejected` | src/app/components/ticket-board/ticket-board.component.ts:62-67 | a missing title or one made only of white space leaves the state unchanged and sends no request |
| `TicketBoard.AddAppendsAtEnd` | src/app/components/ticket-board/ticket-board.component.ts:69-70 | with a view loaded from the store, the new ticket's `order` is the number of the store's tickets in that list (0 for an unknown list id) |
| `TicketBoard.ViewGroupSize` | src/app/components/ticket-board/ticket-board.component.ts:69-70 | in a loaded view, each list's entry is as long as the number of the store's tickets in that list |
| `TicketBoard.ReloadAfterStoreAppend` | src/app/components/ticket-board/ticket-board.component.ts:80-81 | reloading after the store gained a ticket for a known list: that list's entry is one longer and contains the ticket, and every other entry keeps its contents |
| `TicketBoard.AddThenReload` | src/app/components/ticket-board/ticket-board.component.ts:69-85 | adding to a known list and reloading: the stored ticket's `order` is the old entry size, that list shows one ticket more including the new one, and every other list shows the same tickets |
| `TicketBoard.FixBugExample` | src/app/components/ticket-board/ticket-board.component.ts:61-80 | with two tickets in "todo", the draft "  Fix bug " sends a ticket titled "Fix bug" with an empty description and order 2, then a reload |
| `TicketBoard.FixBugThenReload` | src/app/components/ticket-board/ticket-board.component.ts:61-85 | once the store also holds that ticket, the reload shows three tickets in "todo" |
| `TicketBoard.DeleteTicket` | src/app/components/ticket-board/ticket-board.component.ts:88-93 | the state is unchanged; no request exactly when the id is undefined; otherwise a delete of that id and then a reload |
| `TicketBoard.Drop` | src/app/components/ticket-board/ticket-board.component.ts:95-131 | the state is unchanged and a reload always comes last. Within one container: one reorder of the container's list with its post-drop ids. Across containers, with an id: a move to the target list at the drop index, the source reorder, then the target reorder. Without an id: only the reload |
| `TicketBoard.DropReorderPayloads` | src/app/components/ticket-board/ticket-board.component.ts:96-126 | every reorder request names a list of the board or undefined. Its payload is the ids of the target's post-drop array, or, in a move between containers, of the source's |
| `TicketBoard.ReorderWithinListPermutesIds` | src/app/components/ticket-board/ticket-board.component.ts:98-104 | when the drop lands on a known list and the post-drop array holds the same tickets as that list's group, the reorder names that list and sends those tickets' ids rearranged, losing and inventing none |
| `TicketBoard.MoveAcrossListsKeepsIds` | src/app/components/ticket-board/ticket-board.component.ts:105-126 | when the two post-drop arrays together hold the tickets of the two groups, the two reorder payloads together hold those groups' ids |

## Left out

- The database service is not part of this model, so none of its calls has an effect here. Every `await this.db.*` call is a `Request` value. The reload round-trip is `Reload`, and `LoadData` takes the store's answer as parameters.
- `ngOnInit` and `initializeDefaultLists` are left out: they seed the store and then reload, which is store behaviour.
- Angular signals, dependency injection, decorators and templates are left out, and so is `src/app/app.ts`, which holds no logic.
- `moveItemInArray` and `transferArrayItem` are library code that is not shown. The drop event therefore carries the arrays as they are after the library has rearranged them, along with the dragged ticket.
- The in-place rearrangement of the displayed arrays by that library is not modelled, so `Drop` leaves the board unchanged. The reload that ends the handler replaces those arrays once every request before it has resolved.
- Every store request and reload is modelled as resolving. A rejected request would end the handler at that point. In `addTicket` a rejected add or reload skips the reset at lines 83-85, so the drafts and the open form stay. In `drop` a rejection skips the remaining requests and the reload, so the arrays the library rearranged stay in the view.
- `Drop` does not model a start index outside the source array. There the source reads `undefined` and throws on `ticket.id`; the library never produces such an index.
- `previousContainer === container` compares objects. It is the boolean `sameContainer` of the event, not derived from the container ids.
- `createdAt: new Date()` reads the clock, so `AddTicket` takes the timestamp `now` as a parameter.
- The interleaving of concurrent handlers is left out: each handler is one atomic transition.
- `order` and the ticket id are JavaScript numbers. They are modelled as unbounded integers, so fractional and NaN orders are not modelled.
- `Grouping.SortByOrder`: only sortedness and permutation are stated in its contract. `Array.prototype.sort` is stable since ES2019, and the model's insertion sort is stable too: it places each ticket before the later tickets of equal order. The general stability property is not proved; `Grouping.EqualOrdersKeepStoreOrder` proves the case where every order is equal.
- `JsText.Trim` works on Unicode scalar values rather than UTF-16 code units. Every code point that `trim` removes is in the Basic Multilingual Plane, so this changes nothing for them.
- The `Zs` set is fixed at today's Unicode version.
- Plain-object keys are modelled as a string-keyed map, so quirks of special keys such as `__proto__` are not modelled.
- `trackByTicketId` and `trackByListId` are left out: they are field projections used only by the template.

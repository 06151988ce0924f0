/** The board component's event handlers as pure transitions. A handler takes
    the board state and its input and returns the next state together with the
    requests it sends to the store, in the order it awaits them; every request
    is taken to resolve. The store's own behaviour is outside the model:
    `Reload` stands for `await this.loadData()`, whose effect on the state is
    `LoadData` applied to whatever lists and tickets the store then returns. */
module TicketBoard {
  import opened Optional
  import opened TicketModel
  import opened JsText
  import opened Grouping
  import opened DropTargets

  /** The component's state: the lists and the grouped view (both replaced by
      every reload), and the three per-list maps behind the inline add form. */
  datatype Board = Board(
    lists: seq<TicketList>,
    ticketsByList: map<string, seq<Ticket>>,
    newTicketTitle: map<string, string>,
    newTicketDescription: map<string, string>,
    showAddForm: map<string, bool>)

  /** A call on the store, or the reload that follows a mutation. A list id of
      `None` is the undefined that an unresolved container id produces. */
  datatype Request =
    | StoreAddTicket(ticket: NewTicket)
    | StoreDeleteTicket(ticketId: int)
    | StoreMoveTicket(ticketId: int, listId: Option<string>, newIndex: int)
    | StoreReorderTickets(listId: Option<string>, ticketIds: seq<Option<int>>)
    | Reload

  /** What a handler returns: the next state and the requests, in order. */
  datatype Step = Step(board: Board, requests: seq<Request>)

  /** The state the component starts from: nothing loaded, no drafts. */
  const Initial := Board([], map[], map[], map[], map[])

  /** Before the first load no form is open and no group is shown, the view
      agrees with an empty store, and an add does nothing: no title is typed. */
  lemma InitialShowsNothing(listId: string, now: int)
    ensures !Shown(Initial, listId) && GroupSize(Initial, listId) == 0
    ensures ViewMatches(Initial, [])
    ensures AddTicket(Initial, listId, now) == Step(Initial, [])
  {
  }

  /** `m` and `m'` agree at key `k`: both lack it or both map it to the same value. */
  predicate SameAt<V(==)>(m: map<string, V>, m': map<string, V>, k: string) {
    (k in m <==> k in m') && (k in m ==> m[k] == m'[k])
  }

  /** Whether the add form of `listId` is open; a missing entry reads as closed. */
  function Shown(b: Board, listId: string): bool {
    listId in b.showAddForm && b.showAddForm[listId]
  }

  /** The grouped view agrees with the store's `lists` and `tickets`: one entry
      per list id, each sorted by `order` and holding exactly that list's tickets. */
  ghost predicate ViewMatches(b: Board, tickets: seq<Ticket>) {
    && b.ticketsByList.Keys == ListIdSet(b.lists)
    && (forall id :: id in b.ticketsByList ==> SortedByOrder(b.ticketsByList[id]))
    && (forall id :: id in b.ticketsByList ==>
          multiset(b.ticketsByList[id]) == multiset(InList(tickets, id)))
  }

  /** `loadData` once the store has answered with `lists` and `tickets`: the
      view is rebuilt from them and the add-form state is left as it was. */
  function LoadData(b: Board, lists: seq<TicketList>, tickets: seq<Ticket>): (r: Board)
    ensures r.lists == lists
    ensures ViewMatches(r, tickets)
    ensures r.newTicketTitle == b.newTicketTitle
    ensures r.newTicketDescription == b.newTicketDescription
    ensures r.showAddForm == b.showAddForm
  {
    b.(lists := lists, ticketsByList := Group(lists, tickets))
  }

  /** `toggleAddForm`: flips the form flag of `listId` (a missing flag counts as
      closed, and the flag is always written); closing the form empties both
      drafts of that list, opening it keeps them. No other list is affected. */
  function ToggleAddForm(b: Board, listId: string): (r: Board)
    ensures listId in r.showAddForm && Shown(r, listId) == !Shown(b, listId)
    ensures !Shown(r, listId) ==>
      && listId in r.newTicketTitle && r.newTicketTitle[listId] == ""
      && listId in r.newTicketDescription && r.newTicketDescription[listId] == ""
    ensures Shown(r, listId) ==>
      r.newTicketTitle == b.newTicketTitle && r.newTicketDescription == b.newTicketDescription
    ensures forall k :: k != listId ==>
      && SameAt(b.showAddForm, r.showAddForm, k)
      && SameAt(b.newTicketTitle, r.newTicketTitle, k)
      && SameAt(b.newTicketDescription, r.newTicketDescription, k)
    ensures r.lists == b.lists && r.ticketsByList == b.ticketsByList
  {
    var shown := !Shown(b, listId);
    var b1 := b.(showAddForm := b.showAddForm[listId := shown]);
    if shown then b1
    else b1.(newTicketTitle := b1.newTicketTitle[listId := ""],
             newTicketDescription := b1.newTicketDescription[listId := ""])
  }

  /** Toggling twice leaves the form as open or closed as it was, with both
      drafts of that list emptied (one of the two toggles closed it). */
  lemma ToggleTwice(b: Board, listId: string)
    ensures Shown(ToggleAddForm(ToggleAddForm(b, listId), listId), listId) == Shown(b, listId)
    ensures var r := ToggleAddForm(ToggleAddForm(b, listId), listId);
      && listId in r.newTicketTitle && r.newTicketTitle[listId] == ""
      && listId in r.newTicketDescription && r.newTicketDescription[listId] == ""
  {
  }

  /** The number of tickets the view shows for `listId` (`|| []` for a missing entry). */
  function GroupSize(b: Board, listId: string): nat {
    if listId in b.ticketsByList then |b.ticketsByList[listId]| else 0
  }

  /** The draft title of `listId` is missing or made of white space only. */
  predicate BlankTitle(b: Board, listId: string) {
    listId !in b.newTicketTitle || AllWhiteSpace(b.newTicketTitle[listId])
  }

  /** The ticket `addTicket` would hand to the store at time `now`. The title
      draft is trimmed when present, and a missing or empty result means no
      ticket (the `!title` guard). Otherwise the ticket has the trimmed title,
      the trimmed description or the empty string, the list, and an `order`
      equal to the list's current size, so that it is appended at the end. */
  function PrepareTicket(b: Board, listId: string, now: int): (r: Option<NewTicket>)
    ensures r.None? <==> BlankTitle(b, listId)
    ensures r.Some? ==>
      && r.value.title == Trim(b.newTicketTitle[listId]) != ""
      && r.value.description ==
           (if listId in b.newTicketDescription then Trim(b.newTicketDescription[listId]) else "")
      && r.value.listId == listId
      && r.value.order == GroupSize(b, listId)
      && r.value.createdAt == now
  {
    var title := if listId in b.newTicketTitle then Some(Trim(b.newTicketTitle[listId])) else None;
    var description :=
      if listId in b.newTicketDescription then Trim(b.newTicketDescription[listId]) else "";
    if title.None? || title.value == "" then None
    else Some(NewTicket(title.value, description, listId, GroupSize(b, listId), now))
  }

  /** The state reset `addTicket` performs once the ticket is stored: both
      drafts of `listId` emptied and its form closed. */
  function ResetDraft(b: Board, listId: string): (r: Board)
    ensures !Shown(r, listId) && listId in r.showAddForm
    ensures listId in r.newTicketTitle && r.newTicketTitle[listId] == ""
    ensures listId in r.newTicketDescription && r.newTicketDescription[listId] == ""
    ensures forall k :: k != listId ==>
      && SameAt(b.showAddForm, r.showAddForm, k)
      && SameAt(b.newTicketTitle, r.newTicketTitle, k)
      && SameAt(b.newTicketDescription, r.newTicketDescription, k)
    ensures r.lists == b.lists && r.ticketsByList == b.ticketsByList
  {
    b.(newTicketTitle := b.newTicketTitle[listId := ""],
       newTicketDescription := b.newTicketDescription[listId := ""],
       showAddForm := b.showAddForm[listId := false])
  }

  /** `addTicket(listId)` at time `now`. A blank title changes nothing and sends
      nothing. Otherwise the prepared ticket is stored, the data reloaded, and
      that list's drafts and form reset. */
  function AddTicket(b: Board, listId: string, now: int): (r: Step)
    ensures BlankTitle(b, listId) ==> r == Step(b, [])
    ensures !BlankTitle(b, listId) ==>
      && PrepareTicket(b, listId, now).Some?
      && r.requests == [StoreAddTicket(PrepareTicket(b, listId, now).value), Reload]
      && r.board.lists == b.lists && r.board.ticketsByList == b.ticketsByList
      && !Shown(r.board, listId)
      && listId in r.board.newTicketTitle && r.board.newTicketTitle[listId] == ""
      && listId in r.board.newTicketDescription && r.board.newTicketDescription[listId] == ""
      && (forall k :: k != listId ==>
            && SameAt(b.showAddForm, r.board.showAddForm, k)
            && SameAt(b.newTicketTitle, r.board.newTicketTitle, k)
            && SameAt(b.newTicketDescription, r.board.newTicketDescription, k))
  {
    match PrepareTicket(b, listId, now)
    case None => Step(b, [])
    case Some(t) => Step(ResetDraft(b, listId), [StoreAddTicket(t), Reload])
  }

  /** When both requests resolve, the reset after the reload may as well come
      before it: the reload only replaces the lists and the view, the reset
      only touches the form maps. */
  lemma ResetCommutesWithReload(b: Board, listId: string, lists: seq<TicketList>, tickets: seq<Ticket>)
    ensures ResetDraft(LoadData(b, lists, tickets), listId) == LoadData(ResetDraft(b, listId), lists, tickets)
  {
  }

  /** A title made of white space only (or no title at all) is rejected. */
  lemma WhiteSpaceTitleRejected(b: Board, listId: string, now: int)
    requires listId in b.newTicketTitle ==> AllWhiteSpace(b.newTicketTitle[listId])
    ensures AddTicket(b, listId, now) == Step(b, [])
  {
  }

  /** When the view was loaded from the store's `tickets`, the new ticket's
      `order` is the number of tickets the store holds for that list (zero for
      a list id the board does not know), so it lands after all of them. */
  lemma AddAppendsAtEnd(b: Board, tickets: seq<Ticket>, listId: string, now: int)
    requires ViewMatches(b, tickets)
    requires !BlankTitle(b, listId)
    ensures AddTicket(b, listId, now).requests[0].StoreAddTicket?
    ensures AddTicket(b, listId, now).requests[0].ticket.order ==
      if listId in ListIdSet(b.lists) then |InList(tickets, listId)| else 0
  {
  }

  /** In a view loaded from `tickets`, each list's entry is as long as the
      number of the store's tickets in that list. */
  lemma ViewGroupSize(b: Board, tickets: seq<Ticket>, listId: string)
    requires ViewMatches(b, tickets)
    requires listId in b.ticketsByList
    ensures |b.ticketsByList[listId]| == |InList(tickets, listId)|
  {
  }

  /** Adding to a known list and reloading from a store that now also holds
      the new ticket (under whatever id the store gave it): that list shows
      one ticket more, the new one among them with the order just past the
      old count, and every other list shows what it showed before. */
  lemma AddThenReload(b: Board, tickets: seq<Ticket>, listId: string, now: int, newId: int)
    requires ViewMatches(b, tickets)
    requires !BlankTitle(b, listId)
    requires listId in ListIdSet(b.lists)
    ensures AddTicket(b, listId, now).requests[0].StoreAddTicket?
    ensures
      var step := AddTicket(b, listId, now);
      var nt := step.requests[0].ticket;
      var stored := Ticket(Some(newId), nt.title, nt.description, nt.listId, nt.order, nt.createdAt);
      var after := LoadData(step.board, b.lists, tickets + [stored]);
      && stored.order == |b.ticketsByList[listId]|
      && |after.ticketsByList[listId]| == |b.ticketsByList[listId]| + 1
      && stored in after.ticketsByList[listId]
      && (forall id :: id in b.ticketsByList && id != listId ==>
            multiset(after.ticketsByList[id]) == multiset(b.ticketsByList[id]))
  {
    var step := AddTicket(b, listId, now);
    var nt := step.requests[0].ticket;
    var stored := Ticket(Some(newId), nt.title, nt.description, nt.listId, nt.order, nt.createdAt);
    assert stored.listId == listId;
    ReloadAfterStoreAppend(b, tickets, stored);
    assert LoadData(step.board, b.lists, tickets + [stored]).ticketsByList == Group(b.lists, tickets + [stored]);
  }

  /** Reloading from a store that gained one ticket for a known list: that
      list's entry gains exactly that ticket, the others keep their contents. */
  lemma ReloadAfterStoreAppend(b: Board, tickets: seq<Ticket>, stored: Ticket)
    requires ViewMatches(b, tickets)
    requires stored.listId in ListIdSet(b.lists)
    ensures var g := Group(b.lists, tickets + [stored]);
      && |g[stored.listId]| == |b.ticketsByList[stored.listId]| + 1
      && stored in g[stored.listId]
      && (forall id :: id in b.ticketsByList && id != stored.listId ==>
            multiset(g[id]) == multiset(b.ticketsByList[id]))
  {
    var lists := b.lists;
    var listId := stored.listId;
    ViewGroupSize(b, tickets, listId);
    GroupSizeIsListCount(lists, tickets, listId);
    GroupAfterAppend(lists, tickets, stored, listId);
    assert stored in multiset(Group(lists, tickets + [stored])[listId]);
    forall id | id in b.ticketsByList && id != listId
      ensures multiset(Group(lists, tickets + [stored])[id]) == multiset(b.ticketsByList[id])
    {
      GroupAfterAppend(lists, tickets, stored, id);
    }
  }

  /** A worked case: the lists "todo" and "done", with two tickets in "todo". */
  const ExampleLists := [TicketList("todo", "To Do", 0), TicketList("done", "Done", 1)]
  const ExampleTickets := [
    Ticket(Some(1), "Write spec", "", "todo", 0, 0),
    Ticket(Some(2), "Review", "", "todo", 1, 0),
    Ticket(Some(3), "Ship", "", "done", 0, 0)]

  /** The draft "  Fix bug " trims to "Fix bug". */
  lemma FixBugTrims()
    ensures Trim("  Fix bug ") == "Fix bug"
  {
    FixBugLeading();
    FixBugTrailing();
    assert "  Fix bug "[2..] == "Fix bug ";
  }

  /** "  Fix bug " starts with two white-space characters. */
  lemma FixBugLeading()
    ensures LeadingWhiteSpace("  Fix bug ") == 2
  {
    assert "  Fix bug "[1..] == " Fix bug ";
    assert " Fix bug "[1..] == "Fix bug ";
  }

  /** "Fix bug " ends with one white-space character. */
  lemma FixBugTrailing()
    ensures TrailingWhiteSpace("Fix bug ") == 1
  {
    assert "Fix bug "[..7] == "Fix bug";
  }

  /** The example view shows two tickets for "todo". */
  lemma ExampleTodoHoldsTwo()
    ensures "todo" in ListIdSet(ExampleLists)
    ensures |Group(ExampleLists, ExampleTickets)["todo"]| == 2
  {
    var ts := ExampleTickets;
    assert InList(ts[2..], "todo") == [] by {
      assert ts[2..][1..] == [];
    }
    assert InList(ts[1..], "todo") == [ts[1]] by {
      assert ts[1..][1..] == ts[2..];
    }
    assert ExampleLists[0].id == "todo";
    GroupSizeIsListCount(ExampleLists, ts, "todo");
  }

  /** The example board, with the draft "  Fix bug " typed into "todo". */
  function ExampleBoard(): Board {
    LoadData(Initial, ExampleLists, ExampleTickets).(newTicketTitle := map["todo" := "  Fix bug "])
  }

  /** Adding "  Fix bug " to "todo", which shows two tickets, sends a ticket
      titled "Fix bug" with order 2 (and an empty description), then a reload. */
  lemma FixBugExample(now: int)
    ensures AddTicket(ExampleBoard(), "todo", now).requests
         == [StoreAddTicket(NewTicket("Fix bug", "", "todo", 2, now)), Reload]
  {
    FixBugTrims();
    ExampleTodoHoldsTwo();
  }

  /** Once the store holds that ticket, the reload shows three tickets in "todo". */
  lemma FixBugThenReload(now: int)
    ensures
      var stored := Ticket(Some(4), "Fix bug", "", "todo", 2, now);
      |LoadData(AddTicket(ExampleBoard(), "todo", now).board, ExampleLists, ExampleTickets + [stored])
         .ticketsByList["todo"]| == 3
  {
    ExampleTodoHoldsTwo();
    var stored := Ticket(Some(4), "Fix bug", "", "todo", 2, now);
    ReloadAfterStoreAppend(ExampleBoard(), ExampleTickets, stored);
  }

  /** `deleteTicket(ticketId)`: a ticket without an id is ignored; otherwise it
      is deleted from the store and the data reloaded. The state itself only
      changes through that reload. */
  function DeleteTicket(b: Board, ticketId: Option<int>): (r: Step)
    ensures r.board == b
    ensures r.requests == [] <==> ticketId.None?
    ensures forall q :: q in r.requests && q.StoreDeleteTicket? ==> ticketId == Some(q.ticketId)
    ensures ticketId.Some? ==> r.requests == [StoreDeleteTicket(ticketId.value), Reload]
  {
    if ticketId.Some? then Step(b, [StoreDeleteTicket(ticketId.value), Reload]) else Step(b, [])
  }

  /** A finished drag. The library has already rearranged the arrays, so the
      event carries them as they are after the drop: `data` for the container
      dropped into and `previousData` for the one dragged from. `dragged` is
      the ticket the source array held at the drag's start index before the
      rearrangement, `currentIndex` the drop position, and `sameContainer`
      whether the two containers are one and the same. */
  datatype DropEvent = DropEvent(
    containerId: string,
    previousContainerId: string,
    sameContainer: bool,
    dragged: Ticket,
    currentIndex: int,
    data: seq<Ticket>,
    previousData: seq<Ticket>)

  /** `drop(event)`. Within one container the new order of its ids is sent for
      its list. Across containers, a dragged ticket with an id is moved to the
      target list at the drop position and both lists' new id orders are sent,
      source first; a dragged ticket without an id sends nothing. A reload
      always ends the handler, once the requests before it have resolved. */
  function Drop(b: Board, e: DropEvent): (r: Step)
    ensures r.board == b
    ensures |r.requests| > 0 && r.requests[|r.requests| - 1] == Reload
    ensures e.sameContainer ==>
      r.requests == [StoreReorderTickets(ResolveListId(b.lists, e.containerId), Ids(e.data)), Reload]
    ensures !e.sameContainer && e.dragged.id.None? ==> r.requests == [Reload]
    ensures !e.sameContainer && e.dragged.id.Some? ==>
      var target := ResolveListId(b.lists, e.containerId);
      r.requests == [
        StoreMoveTicket(e.dragged.id.value, target, e.currentIndex),
        StoreReorderTickets(ResolveListId(b.lists, e.previousContainerId), Ids(e.previousData)),
        StoreReorderTickets(target, Ids(e.data)),
        Reload]
  {
    var listId := ResolveListId(b.lists, e.containerId);
    if e.sameContainer then
      Step(b, [StoreReorderTickets(listId, Ids(e.data)), Reload])
    else if e.dragged.id.Some? then
      var sourceListId := ResolveListId(b.lists, e.previousContainerId);
      Step(b, [
        StoreMoveTicket(e.dragged.id.value, listId, e.currentIndex),
        StoreReorderTickets(sourceListId, Ids(e.previousData)),
        StoreReorderTickets(listId, Ids(e.data)),
        Reload])
    else
      Step(b, [Reload])
  }

  /** Every reorder request `drop` sends names a list of the board (or
      undefined when the container id is not one), and its payload is the ids
      of one of the two post-drop arrays, position by position. */
  lemma DropReorderPayloads(b: Board, e: DropEvent)
    ensures forall q :: q in Drop(b, e).requests && q.StoreReorderTickets? ==>
      && (q.listId.Some? ==> q.listId.value in ListIdSet(b.lists))
      && ((q.listId == ResolveListId(b.lists, e.containerId) && q.ticketIds == Ids(e.data))
          || (!e.sameContainer && q.listId == ResolveListId(b.lists, e.previousContainerId)
              && q.ticketIds == Ids(e.previousData)))
  {
  }

  /** A reorder within one list loses and invents no ticket: when the
      post-drop array holds the same tickets as the list's group did, the
      reorder is sent for that list and its ids are that group's ids, rearranged. */
  lemma ReorderWithinListPermutesIds(b: Board, e: DropEvent, listId: string)
    requires e.sameContainer
    requires e.containerId == listId && listId in ListIdSet(b.lists)
    requires listId in b.ticketsByList
    requires multiset(e.data) == multiset(b.ticketsByList[listId])
    ensures Drop(b, e).requests[0].StoreReorderTickets?
    ensures Drop(b, e).requests[0].listId == Some(listId)
    ensures multiset(Drop(b, e).requests[0].ticketIds) == multiset(Ids(b.ticketsByList[listId]))
  {
    IdsOfPermutation(e.data, b.ticketsByList[listId]);
  }

  /** A move between lists loses and invents no ticket: when the two
      post-drop arrays together hold the tickets the two groups held, the two
      reorder payloads together hold those groups' ids. */
  lemma MoveAcrossListsKeepsIds(b: Board, e: DropEvent, source: seq<Ticket>, target: seq<Ticket>)
    requires !e.sameContainer && e.dragged.id.Some?
    requires multiset(e.previousData) + multiset(e.data) == multiset(source) + multiset(target)
    ensures Drop(b, e).requests[1].StoreReorderTickets? && Drop(b, e).requests[2].StoreReorderTickets?
    ensures multiset(Drop(b, e).requests[1].ticketIds) + multiset(Drop(b, e).requests[2].ticketIds)
         == multiset(Ids(source)) + multiset(Ids(target))
  {
    var rs := Drop(b, e).requests;
    assert rs[1] == StoreReorderTickets(ResolveListId(b.lists, e.previousContainerId), Ids(e.previousData));
    assert rs[2] == StoreReorderTickets(ResolveListId(b.lists, e.containerId), Ids(e.data));
    assert multiset(e.previousData + e.data) == multiset(source + target);
    IdsOfPermutation(e.previousData + e.data, source + target);
    IdsAppend(e.previousData, e.data);
    IdsAppend(source, target);
  }
}

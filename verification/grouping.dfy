/** The view derivation of `loadData`: every list's tickets, filtered out of
    the whole store and sorted ascending by `order`, collected in a map keyed
    by list id. */
module Grouping {
  import opened TicketModel

  /** Non-decreasing by `order`: what `sort((a, b) => a.order - b.order)` yields. */
  predicate SortedByOrder(s: seq<Ticket>) {
    forall i, j :: 0 <= i < j < |s| ==> s[i].order <= s[j].order
  }

  /** The ids of the given lists, as a set. */
  function ListIdSet(lists: seq<TicketList>): set<string> {
    set l | l in lists :: l.id
  }

  /** `tickets.filter(t => t.listId === listId)`: holds every ticket of that list
      as often as the store holds it, and nothing else. */
  function InList(tickets: seq<Ticket>, listId: string): (r: seq<Ticket>)
    ensures |r| <= |tickets|
    ensures forall t :: multiset(r)[t] == if t.listId == listId then multiset(tickets)[t] else 0
  {
    if |tickets| == 0 then []
    else
      var rest := InList(tickets[1..], listId);
      assert tickets == [tickets[0]] + tickets[1..];
      if tickets[0].listId == listId then [tickets[0]] + rest else rest
  }

  /** Inserts `t` into the sorted `s` before the first ticket whose order is not smaller. */
  function Insert(t: Ticket, s: seq<Ticket>): (r: seq<Ticket>)
    requires SortedByOrder(s)
    ensures SortedByOrder(r)
    ensures multiset(r) == multiset(s) + multiset{t}
    ensures |r| == |s| + 1
    ensures r[0] == t || (|s| > 0 && r[0] == s[0])
  {
    if |s| == 0 then [t]
    else if t.order <= s[0].order then
      SortedCons(t, s);
      [t] + s
    else
      var rest := Insert(t, s[1..]);
      assert s == [s[0]] + s[1..];
      SortedCons(s[0], rest);
      [s[0]] + rest
  }

  /** A ticket placed before a sorted sequence whose first order is not smaller keeps it sorted. */
  lemma SortedCons(x: Ticket, rest: seq<Ticket>)
    requires SortedByOrder(rest)
    requires |rest| > 0 ==> x.order <= rest[0].order
    ensures SortedByOrder([x] + rest)
  {
    var r := [x] + rest;
    forall i, j | 0 <= i < j < |r| ensures r[i].order <= r[j].order {
      if i == 0 {
        assert r[j] == rest[j - 1];
        assert rest[0].order <= rest[j - 1].order;
      } else {
        assert r[i] == rest[i - 1] && r[j] == rest[j - 1];
      }
    }
  }

  /** The tickets of `s` sorted ascending by `order`. */
  function SortByOrder(s: seq<Ticket>): (r: seq<Ticket>)
    ensures SortedByOrder(r)
    ensures multiset(r) == multiset(s)
    ensures |r| == |s|
  {
    if |s| == 0 then []
    else
      assert s == [s[0]] + s[1..];
      Insert(s[0], SortByOrder(s[1..]))
  }

  /** When every ticket has the same `order`, sorting keeps them in store order. */
  lemma {:induction false} EqualOrdersKeepStoreOrder(s: seq<Ticket>)
    requires forall i, j :: 0 <= i < |s| && 0 <= j < |s| ==> s[i].order == s[j].order
    ensures SortByOrder(s) == s
  {
    if |s| > 0 {
      EqualOrdersKeepStoreOrder(s[1..]);
      assert s == [s[0]] + s[1..];
    }
  }

  /** The `grouped` map `loadData` builds by visiting the lists in order
      (a later list with a repeated id overwrites the same value). Its keys are
      exactly the ids of the lists, and each entry is a sorted permutation of
      that list's tickets. */
  function Group(lists: seq<TicketList>, tickets: seq<Ticket>): (r: map<string, seq<Ticket>>)
    ensures r.Keys == ListIdSet(lists)
    ensures forall id :: id in r ==> SortedByOrder(r[id])
    ensures forall id :: id in r ==> multiset(r[id]) == multiset(InList(tickets, id))
    decreases |lists|
  {
    if |lists| == 0 then map[]
    else
      var last := lists[|lists| - 1];
      ListIdSetOfInit(lists);
      Group(lists[..|lists| - 1], tickets)[last.id := SortByOrder(InList(tickets, last.id))]
  }

  /** The ids of a non-empty sequence of lists: those of all but the last, and the last one's. */
  lemma ListIdSetOfInit(lists: seq<TicketList>)
    requires |lists| > 0
    ensures ListIdSet(lists) == ListIdSet(lists[..|lists| - 1]) + {lists[|lists| - 1].id}
  {
    assert lists == lists[..|lists| - 1] + [lists[|lists| - 1]];
  }

  /** For every list, its group holds exactly the store's tickets whose `listId`
      names it, each as often as the store holds it. */
  lemma GroupHoldsExactlyListTickets(lists: seq<TicketList>, tickets: seq<Ticket>, l: TicketList, t: Ticket)
    requires l in lists
    ensures l.id in Group(lists, tickets)
    ensures multiset(Group(lists, tickets)[l.id])[t] == if t.listId == l.id then multiset(tickets)[t] else 0
  {
  }

  /** A ticket whose `listId` names none of the lists appears in no group. */
  lemma OrphanInNoGroup(lists: seq<TicketList>, tickets: seq<Ticket>, t: Ticket)
    requires t.listId !in ListIdSet(lists)
    ensures forall id :: id in Group(lists, tickets) ==> t !in Group(lists, tickets)[id]
  {
  }

  /** Each group is as long as the number of the store's tickets in that list. */
  lemma GroupSizeIsListCount(lists: seq<TicketList>, tickets: seq<Ticket>, id: string)
    requires id in ListIdSet(lists)
    ensures |Group(lists, tickets)[id]| == |InList(tickets, id)|
  {
  }

  /** When the store gains one ticket `t` for a known list, that list's group
      gains exactly `t` and every other group keeps its contents. */
  lemma GroupAfterAppend(lists: seq<TicketList>, tickets: seq<Ticket>, t: Ticket, id: string)
    requires id in ListIdSet(lists)
    ensures multiset(Group(lists, tickets + [t])[id])
         == multiset(Group(lists, tickets)[id]) + (if t.listId == id then multiset{t} else multiset{})
    ensures |Group(lists, tickets + [t])[id]| == |Group(lists, tickets)[id]| + (if t.listId == id then 1 else 0)
  {
    var extra: multiset<Ticket> := if t.listId == id then multiset{t} else multiset{};
    InListAfterAppend(tickets, t, id);
    var before := Group(lists, tickets)[id];
    var after := Group(lists, tickets + [t])[id];
    assert multiset(after) == multiset(before) + extra;
    assert |multiset(after)| == |multiset(before)| + |extra|;
  }

  /** Filtering a store that gained `t` yields the old filter plus `t` when it belongs to the list. */
  lemma InListAfterAppend(tickets: seq<Ticket>, t: Ticket, id: string)
    ensures multiset(InList(tickets + [t], id))
         == multiset(InList(tickets, id)) + (if t.listId == id then multiset{t} else multiset{})
  {
  }
}

/** How a drop event is mapped back onto the board's lists: the drop containers
    carry list ids, resolved through `getListIds().indexOf(...)`, and the reorder
    payload is the container's tickets' ids in array order. */
module DropTargets {
  import opened Optional
  import opened TicketModel

  /** `getListIds()`: the ids of the lists, position by position. */
  function ListIds(lists: seq<TicketList>): (r: seq<string>)
    ensures |r| == |lists|
    ensures forall i :: 0 <= i < |lists| ==> r[i] == lists[i].id
  {
    seq(|lists|, i requires 0 <= i < |lists| => lists[i].id)
  }

  /** `xs.indexOf(x)`: the first position holding `x`, or -1 when there is none. */
  function IndexOf(xs: seq<string>, x: string): (i: int)
    ensures -1 <= i < |xs|
    ensures i == -1 <==> x !in xs
    ensures 0 <= i ==> xs[i] == x && forall j :: 0 <= j < i ==> xs[j] != x
  {
    if |xs| == 0 then -1
    else if xs[0] == x then 0
    else
      var k := IndexOf(xs[1..], x);
      if k == -1 then -1 else k + 1
  }

  /** `this.lists()[this.getListIds().indexOf(containerId)]?.id`: an index of -1
      reads past the array and yields undefined. The result is the container id
      itself when some list carries it, and undefined otherwise. */
  function ResolveListId(lists: seq<TicketList>, containerId: string): (r: Option<string>)
    ensures r.Some? <==> exists l :: l in lists && l.id == containerId
    ensures r.Some? ==> r.value == containerId
  {
    var ids := ListIds(lists);
    var i := IndexOf(ids, containerId);
    if i == -1 then
      assert forall l | l in lists :: l.id != containerId by {
        forall l | l in lists ensures l.id != containerId {
          var k :| 0 <= k < |lists| && lists[k] == l;
          assert ids[k] == l.id;
        }
      }
      None
    else Some(lists[i].id)
  }

  /** `data.map(t => t.id!)`: the non-null assertion has no run-time effect, so a
      ticket without an id contributes undefined. Position `i` of the payload is
      the id of the ticket at position `i`. */
  function Ids(tickets: seq<Ticket>): (r: seq<Option<int>>)
    ensures |r| == |tickets|
    ensures forall i :: 0 <= i < |tickets| ==> r[i] == tickets[i].id
  {
    seq(|tickets|, i requires 0 <= i < |tickets| => tickets[i].id)
  }

  /** The payload of a concatenation is the concatenation of the payloads. */
  lemma IdsAppend(a: seq<Ticket>, b: seq<Ticket>)
    ensures Ids(a + b) == Ids(a) + Ids(b)
  {
    assert forall i :: 0 <= i < |a + b| ==> Ids(a + b)[i] == (Ids(a) + Ids(b))[i];
  }

  /** Removing position `k` removes exactly one occurrence of the element there. */
  lemma MultisetRemoveAt<T>(s: seq<T>, k: int)
    requires 0 <= k < |s|
    ensures multiset(s[..k] + s[k + 1..]) == multiset(s) - multiset{s[k]}
  {
    assert s == s[..k] + [s[k]] + s[k + 1..];
    assert multiset(s) == multiset(s[..k]) + multiset{s[k]} + multiset(s[k + 1..]);
  }

  /** Taking the first element off one of two permutations of each other, and
      the same element off the other, leaves permutations of each other. */
  lemma PermutationWithoutHead<T>(a: seq<T>, b: seq<T>, k: int)
    requires multiset(a) == multiset(b)
    requires 0 < |a| && 0 <= k < |b| && b[k] == a[0]
    ensures multiset(a[1..]) == multiset(b[..k] + b[k + 1..])
  {
    assert a[1..] == a[..0] + a[1..];
    MultisetRemoveAt(a, 0);
    MultisetRemoveAt(b, k);
  }

  /** Dropping the ticket at position `k` drops exactly one occurrence of its id from the payload. */
  lemma IdsMultisetRemoveAt(b: seq<Ticket>, k: int)
    requires 0 <= k < |b|
    ensures multiset(Ids(b)) == multiset(Ids(b[..k] + b[k + 1..])) + multiset{b[k].id}
  {
    var p, x, q := b[..k], [b[k]], b[k + 1..];
    assert b == p + (x + q);
    IdsAppend(p, x + q);
    IdsAppend(x, q);
    IdsAppend(p, q);
    assert Ids(x) == [b[k].id];
    calc {
      multiset(Ids(b));
      multiset(Ids(p)) + multiset(Ids(x)) + multiset(Ids(q));
      multiset(Ids(p)) + multiset(Ids(q)) + multiset{b[k].id};
    }
  }

  /** Rearranging the tickets rearranges their ids: two containers holding the
      same tickets (in any order) produce payloads with the same ids, each as
      often. */
  lemma {:induction false} IdsOfPermutation(a: seq<Ticket>, b: seq<Ticket>)
    requires multiset(a) == multiset(b)
    ensures multiset(Ids(a)) == multiset(Ids(b))
    decreases |a|
  {
    if |a| == 0 {
      assert |multiset(b)| == 0;
    } else {
      var x := a[0];
      assert x in multiset(b);
      assert x in b;
      var k :| 0 <= k < |b| && b[k] == x;
      var b' := b[..k] + b[k + 1..];
      PermutationWithoutHead(a, b, k);
      IdsOfPermutation(a[1..], b');
      IdsMultisetRemoveAt(b, k);
      IdsMultisetRemoveAt(a, 0);
      assert a[..0] + a[1..] == a[1..];
      calc {
        multiset(Ids(a));
        multiset(Ids(a[1..])) + multiset{x.id};
        multiset(Ids(b')) + multiset{x.id};
        multiset(Ids(b));
      }
    }
  }
}

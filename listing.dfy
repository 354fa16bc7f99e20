/**
 * The two texts built from a group order's entries: the order listing and the tag
 * message. Each is specified by a function over the entries and computed by a method
 * that accumulates the text entry by entry, in iteration order.
 */
module Listing {
  import opened Orders

  /** What the listing shows when nobody has ordered yet. */
  const NoOrdersPlaced := "No orders placed"

  /** The listing line of one entry: `display_name: content` and a line break. */
  function Line(e: Entry): string {
    e.user.displayName + ": " + e.order.orderContent + "\n"
  }

  /** The lines of all entries, in iteration order. */
  function Lines(es: OrdersDict): string {
    if es == [] then "" else Lines(es[..|es| - 1]) + Line(es[|es| - 1])
  }

  /** The body of the listing: the sentinel when there are no entries, else their lines. */
  function OrdersListString(es: OrdersDict): string {
    if |es| == 0 then NoOrdersPlaced else Lines(es)
  }

  /** The whole listing message: restaurant header, then the body between backticks. */
  function OrderListMessage(g: GroupOrder): string {
    "Group order for **" + g.restaurantName + "** ```" + OrdersListString(g.ordersDict) + "```"
  }

  /** The mention tokens of all entrants, each followed by a space, in iteration order. */
  function Mentions(es: OrdersDict): string {
    if es == [] then "" else Mentions(es[..|es| - 1]) + es[|es| - 1].user.mention + " "
  }

  /** The tag message: the given text, a blank line, then the mentions. */
  function TagMessage(message: string, es: OrdersDict): string {
    message + "\n\n" + Mentions(es)
  }

  /** Builds the listing body by appending one line per entry. */
  method GenerateOrdersListString(groupOrder: GroupOrder) returns (listString: string)
    ensures listString == OrdersListString(groupOrder.ordersDict)
  {
    var es := groupOrder.ordersDict;
    if |es| == 0 {
      return NoOrdersPlaced;
    }
    listString := "";
    for i := 0 to |es|
      invariant listString == Lines(es[..i])
    {
      assert es[..i + 1][..i] == es[..i];
      listString := listString + Line(es[i]);
    }
    assert es[..|es|] == es;
  }

  /** Wraps the listing body in the restaurant header and backticks. */
  method GenerateOrderListMessageString(groupOrder: GroupOrder) returns (messageString: string)
    ensures messageString == OrderListMessage(groupOrder)
  {
    messageString := "Group order for **" + groupOrder.restaurantName + "** ```";
    var listString := GenerateOrdersListString(groupOrder);
    messageString := messageString + listString;
    messageString := messageString + "```";
  }

  /** Builds the tag message by appending one mention per entrant. */
  method GenerateTagMessageString(message: string, groupOrder: GroupOrder) returns (messageString: string)
    ensures messageString == TagMessage(message, groupOrder.ordersDict)
  {
    var es := groupOrder.ordersDict;
    messageString := message + "\n\n";
    for i := 0 to |es|
      invariant messageString == message + "\n\n" + Mentions(es[..i])
    {
      assert es[..i + 1][..i] == es[..i];
      messageString := messageString + es[i].user.mention + " ";
    }
    assert es[..|es|] == es;
  }

  /** The lines of a concatenation are the concatenation of the lines. */
  lemma {:induction false} LinesAppend(a: OrdersDict, b: OrdersDict)
    ensures Lines(a + b) == Lines(a) + Lines(b)
    decreases |b|
  {
    if b == [] {
      assert a + b == a;
    } else {
      var b' := b[..|b| - 1];
      assert (a + b)[..|a + b| - 1] == a + b';
      assert (a + b)[|a + b| - 1] == b[|b| - 1];
      assert Lines(a + b) == Lines(a + b') + Line(b[|b| - 1]);
      assert Lines(b) == Lines(b') + Line(b[|b| - 1]);
      LinesAppend(a, b');
    }
  }

  /** The listing is exactly one line per entry, entry `k` giving the `k`-th line. */
  lemma {:induction false} LinesSplit(es: OrdersDict, k: nat)
    requires k < |es|
    ensures Lines(es) == Lines(es[..k]) + Line(es[k]) + Lines(es[k + 1..])
  {
    assert es == es[..k] + [es[k]] + es[k + 1..];
    LinesAppend(es[..k] + [es[k]], es[k + 1..]);
    LinesAppend(es[..k], [es[k]]);
    assert [es[k]][..0] == [];
  }

  /**
   * Ordering again replaces the user's line where it was; a first order adds a line
   * at the end. No other line changes.
   */
  lemma LinesAfterPut(es: OrdersDict, u: User, o: Order)
    ensures Contains(es, u) ==>
      var k := Find(es, u);
      Lines(Put(es, u, o)) == Lines(es[..k]) + Line(Entry(es[k].user, o)) + Lines(es[k + 1..])
    ensures !Contains(es, u) ==> Lines(Put(es, u, o)) == Lines(es) + Line(Entry(u, o))
  {
    FindContains(es, u);
    var k := Find(es, u);
    var r := Put(es, u, o);
    if k < |es| {
      LinesSplit(r, k);
      assert r[..k] == es[..k] && r[k + 1..] == es[k + 1..];
    } else {
      assert r[..|r| - 1] == es;
    }
  }

  /** Two entries inserted A then B are listed A then B. */
  lemma ListingOfTwo(a: Entry, b: Entry)
    ensures OrdersListString([a, b])
         == a.user.displayName + ": " + a.order.orderContent + "\n" + b.user.displayName + ": " + b.order.orderContent + "\n"
  {
    assert [a, b][..1] == [a];
    assert [a][..0] == [];
    assert Lines([a, b]) == Lines([a]) + Line(b);
    assert Lines([a]) == Line(a);
    var x := a.user.displayName + ": " + a.order.orderContent + "\n";
    assert Line(b) == b.user.displayName + ": " + b.order.orderContent + "\n";
    assert x + Line(b) == x + b.user.displayName + ": " + b.order.orderContent + "\n";
  }

  /** Neither display names nor order contents break lines. */
  predicate SingleLineEntries(es: OrdersDict) {
    forall i :: 0 <= i < |es| ==> '\n' !in es[i].user.displayName && '\n' !in es[i].order.orderContent
  }

  /** With single-line names and contents the listing has exactly one line per entry. */
  lemma {:induction false} LinesCount(es: OrdersDict)
    requires SingleLineEntries(es)
    ensures multiset(Lines(es))['\n'] == |es|
    decreases |es|
  {
    if es != [] {
      var e := es[|es| - 1];
      LinesCount(es[..|es| - 1]);
      assert multiset(Line(e)) == multiset(e.user.displayName) + multiset(": ") + multiset(e.order.orderContent) + multiset("\n");
    }
  }

  /** The sentinel appears exactly when there are no entries: a non-empty listing ends with a line break. */
  lemma NoOrdersPlacedIff(es: OrdersDict)
    ensures OrdersListString(es) == NoOrdersPlaced <==> |es| == 0
  {
    if |es| != 0 {
      var l := Line(es[|es| - 1]);
      assert Lines(es) == Lines(es[..|es| - 1]) + l;
      assert Lines(es)[|Lines(es)| - 1] == l[|l| - 1] == '\n';
      assert NoOrdersPlaced[|NoOrdersPlaced| - 1] == 'd';
    }
  }

  /** The mentions depend only on who is in the order and in which order, not on what they ordered. */
  lemma {:induction false} MentionsOfKeys(a: OrdersDict, b: OrdersDict)
    requires Keys(a) == Keys(b)
    ensures Mentions(a) == Mentions(b)
    decreases |a|
  {
    if a != [] {
      assert |a| == |Keys(a)| == |b|;
      assert a[|a| - 1].user == Keys(a)[|a| - 1] == b[|b| - 1].user;
      assert Keys(a[..|a| - 1]) == Keys(a)[..|a| - 1];
      assert Keys(b[..|b| - 1]) == Keys(b)[..|b| - 1];
      MentionsOfKeys(a[..|a| - 1], b[..|b| - 1]);
    }
  }

  /** Ordering again leaves the tag message as it was; a first order appends one mention. */
  lemma TagMessageAfterPut(message: string, es: OrdersDict, u: User, o: Order)
    ensures Contains(es, u) ==> TagMessage(message, Put(es, u, o)) == TagMessage(message, es)
    ensures !Contains(es, u) ==> TagMessage(message, Put(es, u, o)) == TagMessage(message, es) + u.mention + " "
  {
    PutKeys(es, u, o);
    var r := Put(es, u, o);
    if Contains(es, u) {
      MentionsOfKeys(r, es);
    } else {
      assert r[..|r| - 1] == es;
    }
  }
}

/**
 * The per-channel group-order lifecycle as pure functions over the two registries:
 * the active group order of each channel and the proposal awaiting confirmation on
 * each channel. Each command is a function from the registries before it to the
 * registries after it and the message it sends; the clock reading is a parameter.
 */
module Lifecycle {
  import opened Orders
  import opened Settings
  import opened Notices
  import opened Listing

  /**
   * A chat channel: `id` is the identity, `name` is how it is shown in messages. The
   * registries are keyed by the id, so a renamed channel keeps its orders.
   */
  datatype Channel = Channel(id: nat, name: string)

  /** The two registries, each keyed by channel id. */
  datatype Registries = Registries(
    groupOrders: map<nat, GroupOrder>,
    awaitingConfirmation: map<nat, GroupOrder>)

  /** The outcome of one command: the registries afterwards and the message it sends. */
  datatype Step = Step(state: Registries, notice: Notice)

  /** No active order lists a user twice, and a pending proposal never holds orders. */
  predicate WellFormed(s: Registries) {
    && (forall k :: k in s.groupOrders ==> DistinctUsers(s.groupOrders[k].ordersDict))
    && (forall k :: k in s.awaitingConfirmation ==> s.awaitingConfirmation[k].ordersDict == [])
  }

  /** An order is stale once it is strictly older than the threshold. */
  function OrderOldEnoughToOverwrite(order: GroupOrder, now: int): (r: bool)
    ensures r <==> order.timestamp + ThresholdSeconds < now
    ensures r ==> order.timestamp < now
  {
    now - order.timestamp > ConfirmationNeededTimeThreshold * 60 * 60
  }

  /** The channel's pending proposal is for exactly this restaurant name. */
  function OrderAwaitsConfirmation(awaiting: map<nat, GroupOrder>, c: Channel, restaurantName: string): (r: bool)
    ensures r ==> c.id in awaiting
    ensures c.id in awaiting ==> (r <==> awaiting[c.id].restaurantName == restaurantName)
  {
    c.id in awaiting && awaiting[c.id].restaurantName == restaurantName
  }

  /**
   * Starting an order needs confirmation exactly when a recent order is active and the
   * request does not repeat the pending proposal's restaurant name.
   */
  function OrderNeedsConfirmation(s: Registries, c: Channel, restaurantName: string, now: int): (r: bool)
    ensures r <==>
      && c.id in s.groupOrders
      && now - s.groupOrders[c.id].timestamp <= ThresholdSeconds
      && !(c.id in s.awaitingConfirmation && s.awaitingConfirmation[c.id].restaurantName == restaurantName)
  {
    if c.id !in s.groupOrders then false
    else if OrderOldEnoughToOverwrite(s.groupOrders[c.id], now) then false
    else if OrderAwaitsConfirmation(s.awaitingConfirmation, c, restaurantName) then false
    else true
  }

  /**
   * The start-order command. It touches only this channel's entries, leaves the
   * channel with an active order either way, and answers on the channel.
   */
  function StartOrder(s: Registries, c: Channel, restaurantName: string, now: int): (r: Step)
    ensures r.state.groupOrders - {c.id} == s.groupOrders - {c.id}
    ensures r.state.awaitingConfirmation - {c.id} == s.awaitingConfirmation - {c.id}
    ensures r.state.groupOrders.Keys == s.groupOrders.Keys + {c.id}
    ensures r.notice.ToChannel?
  {
    if OrderNeedsConfirmation(s, c, restaurantName, now) then
      Step(s.(awaitingConfirmation := s.awaitingConfirmation[c.id := NewGroupOrder(restaurantName, now)]),
           ToChannel(ConfirmationRequestText(|s.groupOrders[c.id].ordersDict|)))
    else
      Step(Registries(s.groupOrders[c.id := NewGroupOrder(restaurantName, now)], s.awaitingConfirmation - {c.id}),
           ToChannel(TakingOrdersText(restaurantName)))
  }

  /**
   * The order command: the author's entry becomes the given order. No channel gains or
   * loses an order, no proposal changes, and the receipt goes privately to the author.
   */
  function PlaceOrder(s: Registries, c: Channel, author: User, orderContent: string, now: int): (r: Step)
    ensures r.state.awaitingConfirmation == s.awaitingConfirmation
    ensures r.state.groupOrders.Keys == s.groupOrders.Keys
    ensures r.state.groupOrders - {c.id} == s.groupOrders - {c.id}
    ensures c.id in s.groupOrders ==> r.notice.ToUser? && r.notice.user == author
    ensures c.id !in s.groupOrders ==> r.state == s && r.notice.ToChannel?
  {
    if c.id !in s.groupOrders then Step(s, ToChannel(NoActiveOrderText))
    else
      var g := s.groupOrders[c.id];
      var withWarning := OrderOldEnoughToOverwrite(g, now);
      Step(s.(groupOrders := s.groupOrders[c.id := g.(ordersDict := Put(g.ordersDict, author, Order(orderContent)))]),
           ToUser(author, OrderReceiptText(orderContent, g.restaurantName, c.name, withWarning)))
  }

  /**
   * The list command (it changes nothing). It answers on the channel, and the answer
   * is the no-active-order notice exactly when there is no active order; an order
   * nobody has joined yet is listed as `No orders placed`.
   */
  function ListOrders(s: Registries, c: Channel): (r: Notice)
    ensures r.ToChannel?
    ensures r.text == NoActiveOrderText <==> c.id !in s.groupOrders
    ensures c.id in s.groupOrders && s.groupOrders[c.id].ordersDict == [] ==>
      r.text == "Group order for **" + s.groupOrders[c.id].restaurantName + "** ```No orders placed```"
  {
    if c.id !in s.groupOrders then ToChannel(NoActiveOrderText)
    else
      var text := OrderListMessage(s.groupOrders[c.id]);
      assert text[0] == 'G' && NoActiveOrderText[0] == 'N';
      ToChannel(text)
  }

  /**
   * The tag command (it changes nothing). It answers on the channel; with an active
   * order the answer starts with the given text and a blank line, which is all of it
   * when nobody has joined.
   */
  function TagOrder(s: Registries, c: Channel, message: string): (r: Notice)
    ensures r.ToChannel?
    ensures c.id in s.groupOrders ==> message + "\n\n" <= r.text
    ensures c.id in s.groupOrders && s.groupOrders[c.id].ordersDict == [] ==> r.text == message + "\n\n"
  {
    if c.id !in s.groupOrders then ToChannel(NoActiveOrderText)
    else ToChannel(TagMessage(message, s.groupOrders[c.id].ordersDict))
  }

  /**
   * The leave command: the author's entry is dropped; the group order itself stays.
   * No channel gains or loses an order, no proposal changes, and the answer goes
   * privately to the author.
   */
  function LeaveOrder(s: Registries, c: Channel, author: User): (r: Step)
    ensures r.state.awaitingConfirmation == s.awaitingConfirmation
    ensures r.state.groupOrders.Keys == s.groupOrders.Keys
    ensures r.state.groupOrders - {c.id} == s.groupOrders - {c.id}
    ensures c.id in s.groupOrders ==> r.notice.ToUser? && r.notice.user == author
    ensures c.id !in s.groupOrders ==> r.state == s && r.notice.ToChannel?
  {
    if c.id !in s.groupOrders then Step(s, ToChannel(NoActiveOrderText))
    else
      var g := s.groupOrders[c.id];
      var s' := s.(groupOrders := s.groupOrders[c.id := g.(ordersDict := Remove(g.ordersDict, author))]);
      if Contains(g.ordersDict, author) then Step(s', ToUser(author, LeftOrderText(g.restaurantName, c.name)))
      else Step(s', ToUser(author, NotAMemberText(c.name)))
  }

  /**
   * Per channel, starting is a two-state machine: afterwards a proposal is pending
   * exactly when confirmation was needed, and then it is an empty proposal for the
   * requested name while the active order is untouched; otherwise the active order is
   * a fresh one for the requested name. Other channels are untouched in both registries.
   */
  lemma StartOrderEffect(s: Registries, c: Channel, restaurantName: string, now: int)
    ensures var r := StartOrder(s, c, restaurantName, now);
      && r.state.groupOrders - {c.id} == s.groupOrders - {c.id}
      && r.state.awaitingConfirmation - {c.id} == s.awaitingConfirmation - {c.id}
      && (c.id in r.state.awaitingConfirmation <==> OrderNeedsConfirmation(s, c, restaurantName, now))
      && (OrderNeedsConfirmation(s, c, restaurantName, now) ==>
            && r.state.groupOrders == s.groupOrders
            && r.state.awaitingConfirmation[c.id] == NewGroupOrder(restaurantName, now)
            && r.notice == ToChannel(ConfirmationRequestText(|s.groupOrders[c.id].ordersDict|)))
      && (!OrderNeedsConfirmation(s, c, restaurantName, now) ==>
            && r.state.groupOrders[c.id] == NewGroupOrder(restaurantName, now)
            && r.notice == ToChannel(TakingOrdersText(restaurantName)))
  {
  }

  /**
   * Two identical requests against a recent order: the first only records the
   * proposal, the second installs a fresh order for that restaurant and clears it.
   */
  lemma TwoIdenticalStartsOverwrite(s: Registries, c: Channel, restaurantName: string, t1: int, t2: int)
    requires c.id in s.groupOrders && !OrderOldEnoughToOverwrite(s.groupOrders[c.id], t1)
    requires !OrderAwaitsConfirmation(s.awaitingConfirmation, c, restaurantName)
    ensures var s1 := StartOrder(s, c, restaurantName, t1).state;
      && s1.groupOrders == s.groupOrders
      && s1.awaitingConfirmation == s.awaitingConfirmation[c.id := NewGroupOrder(restaurantName, t1)]
    ensures var s2 := StartOrder(StartOrder(s, c, restaurantName, t1).state, c, restaurantName, t2).state;
      && s2.groupOrders == s.groupOrders[c.id := NewGroupOrder(restaurantName, t2)]
      && s2.awaitingConfirmation == s.awaitingConfirmation - {c.id}
  {
    var s1 := StartOrder(s, c, restaurantName, t1).state;
    assert s1.awaitingConfirmation - {c.id} == s.awaitingConfirmation - {c.id};
  }

  /**
   * A request for a different restaurant while another proposal is pending replaces
   * the proposal and leaves the active order alone.
   */
  lemma MismatchedStartReplacesPending(s: Registries, c: Channel, pending: string, restaurantName: string, now: int)
    requires c.id in s.groupOrders && !OrderOldEnoughToOverwrite(s.groupOrders[c.id], now)
    requires OrderAwaitsConfirmation(s.awaitingConfirmation, c, pending) && pending != restaurantName
    ensures var r := StartOrder(s, c, restaurantName, now).state;
      && r.groupOrders == s.groupOrders
      && c.id in r.awaitingConfirmation && r.awaitingConfirmation[c.id].restaurantName == restaurantName
  {
  }

  /** With no order, or a stale one, a start installs a fresh order at once, whatever is pending. */
  lemma StaleOrNoOrderStartsAtOnce(s: Registries, c: Channel, restaurantName: string, now: int)
    requires c.id !in s.groupOrders || OrderOldEnoughToOverwrite(s.groupOrders[c.id], now)
    ensures !OrderNeedsConfirmation(s, c, restaurantName, now)
    ensures var r := StartOrder(s, c, restaurantName, now).state;
      r.groupOrders[c.id] == NewGroupOrder(restaurantName, now) && c.id !in r.awaitingConfirmation
  {
  }

  /**
   * Ordering changes only the channel's active order, and in it only the entries: the
   * restaurant, the creation time, the pending proposals and all other channels stay as
   * they were. It is performed on a stale order too, and the receipt's warning reports
   * the staleness measured before the write.
   */
  lemma PlaceOrderFrame(s: Registries, c: Channel, author: User, orderContent: string, now: int)
    requires c.id in s.groupOrders
    ensures var r := PlaceOrder(s, c, author, orderContent, now);
      var g, g' := s.groupOrders[c.id], r.state.groupOrders[c.id];
      && r.state.groupOrders - {c.id} == s.groupOrders - {c.id}
      && r.state.awaitingConfirmation == s.awaitingConfirmation
      && g'.restaurantName == g.restaurantName && g'.timestamp == g.timestamp
      && r.notice == ToUser(author, OrderReceiptText(orderContent, g.restaurantName, c.name, OrderOldEnoughToOverwrite(g, now)))
      && OrderOldEnoughToOverwrite(g', now) == OrderOldEnoughToOverwrite(g, now)
  {
  }

  /**
   * Ordering sets the author's entry to the new order and leaves every other user's
   * entry as it was; an author who had ordered before keeps their place in the
   * iteration order, a first-time author comes last.
   */
  lemma {:induction false} PlaceOrderEntries(s: Registries, c: Channel, author: User, orderContent: string, now: int)
    requires c.id in s.groupOrders
    ensures var es, es' := s.groupOrders[c.id].ordersDict, PlaceOrder(s, c, author, orderContent, now).state.groupOrders[c.id].ordersDict;
      && Get(es', author) == Some(Order(orderContent))
      && (forall v: User :: v.id != author.id ==> Get(es', v) == Get(es, v))
      && Keys(es') == (if Contains(es, author) then Keys(es) else Keys(es) + [author])
  {
    var es := s.groupOrders[c.id].ordersDict;
    var o := Order(orderContent);
    assert PlaceOrder(s, c, author, orderContent, now).state.groupOrders[c.id].ordersDict == Put(es, author, o);
    PutKeys(es, author, o);
    PutLookup(es, author, o, author);
    forall v: User | v.id != author.id
      ensures Get(Put(es, author, o), v) == Get(es, v)
    {
      PutLookup(es, author, o, v);
    }
  }

  /**
   * Leaving drops exactly the author's entry when there is one and reports it;
   * otherwise nothing changes and the author hears they were not part of the order.
   * The group order stays registered even when it becomes empty.
   */
  lemma {:induction false} LeaveOrderEffect(s: Registries, c: Channel, author: User)
    requires WellFormed(s) && c.id in s.groupOrders
    ensures var r := LeaveOrder(s, c, author);
      var g, g' := s.groupOrders[c.id], r.state.groupOrders[c.id];
      && r.state.groupOrders.Keys == s.groupOrders.Keys
      && r.state.groupOrders - {c.id} == s.groupOrders - {c.id}
      && r.state.awaitingConfirmation == s.awaitingConfirmation
      && g'.restaurantName == g.restaurantName && g'.timestamp == g.timestamp
      && Get(g'.ordersDict, author) == None
      && (forall v: User :: v.id != author.id ==> Get(g'.ordersDict, v) == Get(g.ordersDict, v))
      && (Contains(g.ordersDict, author) ==>
            && |g'.ordersDict| == |g.ordersDict| - 1
            && Keys(g'.ordersDict) == Keys(g.ordersDict)[..Find(g.ordersDict, author)] + Keys(g.ordersDict)[Find(g.ordersDict, author) + 1..]
            && r.notice == ToUser(author, LeftOrderText(g.restaurantName, c.name)))
      && (!Contains(g.ordersDict, author) ==>
            && g' == g
            && r.notice == ToUser(author, NotAMemberText(c.name)))
  {
    var g := s.groupOrders[c.id];
    RemoveKeys(g.ordersDict, author);
    RemoveLookup(g.ordersDict, author, author);
    forall v: User | v.id != author.id
      ensures Get(Remove(g.ordersDict, author), v) == Get(g.ordersDict, v)
    {
      RemoveLookup(g.ordersDict, author, v);
    }
  }

  /** Without an active order, ordering, listing, tagging and leaving only report that. */
  lemma NoActiveOrderGuards(s: Registries, c: Channel, author: User, text: string, now: int)
    requires c.id !in s.groupOrders
    ensures PlaceOrder(s, c, author, text, now) == Step(s, ToChannel(NoActiveOrderText))
    ensures ListOrders(s, c) == ToChannel(NoActiveOrderText)
    ensures TagOrder(s, c, text) == ToChannel(NoActiveOrderText)
    ensures LeaveOrder(s, c, author) == Step(s, ToChannel(NoActiveOrderText))
  {
  }

  /** Replacing one active order by one without repeated users keeps the registries well formed. */
  lemma ReplaceOrderWellFormed(s: Registries, k: nat, g: GroupOrder)
    requires WellFormed(s) && DistinctUsers(g.ordersDict)
    ensures WellFormed(s.(groupOrders := s.groupOrders[k := g]))
  {
  }

  /** Starting an order keeps the registries well formed. */
  lemma StartOrderPreservesWellFormed(s: Registries, c: Channel, restaurantName: string, now: int)
    requires WellFormed(s)
    ensures WellFormed(StartOrder(s, c, restaurantName, now).state)
  {
    if !OrderNeedsConfirmation(s, c, restaurantName, now) {
      ReplaceOrderWellFormed(s.(awaitingConfirmation := s.awaitingConfirmation - {c.id}), c.id, NewGroupOrder(restaurantName, now));
    }
  }

  /** Ordering keeps the registries well formed: the author still has a single entry. */
  lemma PlaceOrderPreservesWellFormed(s: Registries, c: Channel, author: User, orderContent: string, now: int)
    requires WellFormed(s)
    ensures WellFormed(PlaceOrder(s, c, author, orderContent, now).state)
  {
    if c.id in s.groupOrders {
      var g := s.groupOrders[c.id];
      PutDistinct(g.ordersDict, author, Order(orderContent));
      ReplaceOrderWellFormed(s, c.id, g.(ordersDict := Put(g.ordersDict, author, Order(orderContent))));
    }
  }

  /** Leaving keeps the registries well formed. */
  lemma LeaveOrderPreservesWellFormed(s: Registries, c: Channel, author: User)
    requires WellFormed(s)
    ensures WellFormed(LeaveOrder(s, c, author).state)
  {
    if c.id in s.groupOrders {
      var g := s.groupOrders[c.id];
      RemoveDistinct(g.ordersDict, author);
      ReplaceOrderWellFormed(s, c.id, g.(ordersDict := Remove(g.ordersDict, author)));
      assert LeaveOrder(s, c, author).state == s.(groupOrders := s.groupOrders[c.id := g.(ordersDict := Remove(g.ordersDict, author))]);
    }
  }
}

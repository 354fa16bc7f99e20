/**
 * The bot's command handlers over the two process-wide registries, which they update
 * in place. Each handler returns the message it sends; each is specified by the pure
 * command of the `Lifecycle` module, whose properties are proved there.
 */
module Commands {
  import opened Orders
  import opened Notices
  import opened Listing
  import opened Lifecycle

  class Foody {
    /** The active group order of each channel, by channel id. */
    var groupOrdersDict: map<nat, GroupOrder>
    /** The proposal awaiting confirmation on each channel, by channel id. */
    var awaitingConfirmationDict: map<nat, GroupOrder>

    /** The registries as a value. */
    function State(): Registries
      reads this
    {
      Registries(groupOrdersDict, awaitingConfirmationDict)
    }

    ghost predicate Valid()
      reads this
    {
      WellFormed(State())
    }

    /** At start-up no channel has an order or a pending proposal. */
    constructor ()
      ensures Valid()
      ensures groupOrdersDict == map[] && awaitingConfirmationDict == map[]
    {
      groupOrdersDict := map[];
      awaitingConfirmationDict := map[];
    }

    /** Clears the channel's pending proposal and installs a fresh order. */
    method InitializeNewOrder(c: Channel, restaurantName: string, now: int) returns (n: Notice)
      requires Valid()
      modifies this
      ensures Valid()
      ensures awaitingConfirmationDict == old(awaitingConfirmationDict) - {c.id}
      ensures groupOrdersDict == old(groupOrdersDict)[c.id := NewGroupOrder(restaurantName, now)]
      ensures n == ToChannel(TakingOrdersText(restaurantName))
    {
      awaitingConfirmationDict := awaitingConfirmationDict - {c.id};
      groupOrdersDict := groupOrdersDict[c.id := NewGroupOrder(restaurantName, now)];
      n := ToChannel(TakingOrdersText(restaurantName));
    }

    /** Records an empty proposal for the restaurant, replacing any earlier one, and asks for confirmation. */
    method SendConfirmationRequest(c: Channel, restaurantName: string, currentGroupOrder: GroupOrder, now: int)
      returns (n: Notice)
      requires Valid()
      modifies this
      ensures Valid()
      ensures awaitingConfirmationDict == old(awaitingConfirmationDict)[c.id := NewGroupOrder(restaurantName, now)]
      ensures groupOrdersDict == old(groupOrdersDict)
      ensures n == ToChannel(ConfirmationRequestText(|currentGroupOrder.ordersDict|))
    {
      awaitingConfirmationDict := awaitingConfirmationDict[c.id := NewGroupOrder(restaurantName, now)];
      n := ToChannel(ConfirmationRequestText(|currentGroupOrder.ordersDict|));
    }

    /** The start-order command. */
    method StartNewOrder(c: Channel, restaurantName: string, now: int) returns (n: Notice)
      requires Valid()
      modifies this
      ensures Valid()
      ensures Step(State(), n) == StartOrder(old(State()), c, restaurantName, now)
    {
      if OrderNeedsConfirmation(State(), c, restaurantName, now) {
        n := SendConfirmationRequest(c, restaurantName, groupOrdersDict[c.id], now);
      } else {
        n := InitializeNewOrder(c, restaurantName, now);
      }
    }

    /** Sets the author's entry in the channel's active order and writes the receipt. */
    method AddItemToOrder(c: Channel, author: User, orderContent: string, withWarning: bool) returns (n: Notice)
      requires Valid() && c.id in groupOrdersDict
      modifies this
      ensures Valid()
      ensures awaitingConfirmationDict == old(awaitingConfirmationDict)
      ensures groupOrdersDict == old(groupOrdersDict)[c.id := old(groupOrdersDict)[c.id].(
                ordersDict := Put(old(groupOrdersDict)[c.id].ordersDict, author, Order(orderContent)))]
      ensures n == ToUser(author, OrderReceiptText(orderContent, old(groupOrdersDict)[c.id].restaurantName, c.name, withWarning))
    {
      var groupOrder := groupOrdersDict[c.id];
      var order := Order(orderContent);
      var updated := groupOrder.(ordersDict := Put(groupOrder.ordersDict, author, order));
      PutDistinct(groupOrder.ordersDict, author, order);
      ReplaceOrderWellFormed(State(), c.id, updated);
      groupOrdersDict := groupOrdersDict[c.id := updated];
      var messageString := OrderReceiptHead(orderContent, groupOrder.restaurantName, c.name);
      ReceiptParts(orderContent, groupOrder.restaurantName, c.name);
      if withWarning {
        messageString := messageString + StaleOrderWarning;
      }
      n := ToUser(author, messageString);
    }

    /** The order command; the warning flag is the order's staleness before the write. */
    method OrderItem(c: Channel, author: User, orderContent: string, now: int) returns (n: Notice)
      requires Valid()
      modifies this
      ensures Valid()
      ensures Step(State(), n) == PlaceOrder(old(State()), c, author, orderContent, now)
    {
      if c.id !in groupOrdersDict {
        n := ToChannel(NoActiveOrderText);
      } else {
        n := AddItemToOrder(c, author, orderContent, OrderOldEnoughToOverwrite(groupOrdersDict[c.id], now));
      }
    }

    /** The list command. */
    method ListOrdersInCurrentGroupOrder(c: Channel) returns (n: Notice)
      ensures n == ListOrders(State(), c)
    {
      if c.id !in groupOrdersDict {
        n := ToChannel(NoActiveOrderText);
      } else {
        var messageString := GenerateOrderListMessageString(groupOrdersDict[c.id]);
        n := ToChannel(messageString);
      }
    }

    /** The tag command. */
    method SendMessageAndTagUsersInCurrentOrder(c: Channel, message: string) returns (n: Notice)
      ensures n == TagOrder(State(), c, message)
    {
      if c.id !in groupOrdersDict {
        n := ToChannel(NoActiveOrderText);
      } else {
        var messageString := GenerateTagMessageString(message, groupOrdersDict[c.id]);
        n := ToChannel(messageString);
      }
    }

    /** Pops the user's entry from the channel's active order and tells the user what happened. */
    method RemoveUserFromOrder(user: User, c: Channel) returns (n: Notice)
      requires Valid() && c.id in groupOrdersDict
      modifies this
      ensures Valid()
      ensures awaitingConfirmationDict == old(awaitingConfirmationDict)
      ensures groupOrdersDict == old(groupOrdersDict)[c.id := old(groupOrdersDict)[c.id].(
                ordersDict := Remove(old(groupOrdersDict)[c.id].ordersDict, user))]
      ensures n == if Contains(old(groupOrdersDict)[c.id].ordersDict, user)
                   then ToUser(user, LeftOrderText(old(groupOrdersDict)[c.id].restaurantName, c.name))
                   else ToUser(user, NotAMemberText(c.name))
    {
      var groupOrder := groupOrdersDict[c.id];
      var wasPresent := Contains(groupOrder.ordersDict, user);
      var updated := groupOrder.(ordersDict := Remove(groupOrder.ordersDict, user));
      RemoveDistinct(groupOrder.ordersDict, user);
      ReplaceOrderWellFormed(State(), c.id, updated);
      groupOrdersDict := groupOrdersDict[c.id := updated];
      if !wasPresent {
        n := ToUser(user, NotAMemberText(c.name));
      } else {
        n := ToUser(user, LeftOrderText(groupOrder.restaurantName, c.name));
      }
    }

    /** The leave command. */
    method LeaveCurrentOrder(c: Channel, author: User) returns (n: Notice)
      requires Valid()
      modifies this
      ensures Valid()
      ensures Step(State(), n) == LeaveOrder(old(State()), c, author)
    {
      if c.id !in groupOrdersDict {
        n := ToChannel(NoActiveOrderText);
      } else {
        n := RemoveUserFromOrder(author, c);
      }
    }
  }

  /**
   * A channel with a recent order: a first request for a restaurant only asks for
   * confirmation, and the identical second request installs a fresh order for it.
   */
  method ConfirmedOverwriteSession(bot: Foody, c: Channel, restaurantName: string, now: int)
    requires bot.Valid() && c.id in bot.groupOrdersDict
    requires !OrderOldEnoughToOverwrite(bot.groupOrdersDict[c.id], now)
    requires !OrderAwaitsConfirmation(bot.awaitingConfirmationDict, c, restaurantName)
    modifies bot
    ensures bot.Valid()
    ensures c.id !in bot.awaitingConfirmationDict
    ensures bot.groupOrdersDict == old(bot.groupOrdersDict)[c.id := NewGroupOrder(restaurantName, now)]
  {
    TwoIdenticalStartsOverwrite(bot.State(), c, restaurantName, now, now);
    var n := bot.StartNewOrder(c, restaurantName, now);
    assert bot.groupOrdersDict == old(bot.groupOrdersDict);
    n := bot.StartNewOrder(c, restaurantName, now);
  }

  /**
   * On a fresh order, Alice orders, Bob orders and Alice orders again: Alice's
   * second order replaces her first and is still listed before Bob's.
   */
  method ReorderSession(bot: Foody, c: Channel, now: int, alice: User, bob: User, first: string, second: string, third: string)
    requires bot.Valid() && c.id in bot.groupOrdersDict && bot.groupOrdersDict[c.id].ordersDict == []
    requires alice.id != bob.id
    modifies bot
    ensures bot.Valid() && c.id in bot.groupOrdersDict
    ensures bot.groupOrdersDict[c.id].ordersDict == [Entry(alice, Order(third)), Entry(bob, Order(second))]
  {
    ghost var one := [Entry(alice, Order(first))];
    ghost var two := one + [Entry(bob, Order(second))];
    FindIs(one, bob, 1);
    FindIs(two, alice, 0);
    assert Put([], alice, Order(first)) == one;
    assert Put(one, bob, Order(second)) == two;
    assert Put(two, alice, Order(third)) == [Entry(alice, Order(third)), Entry(bob, Order(second))];
    var n := bot.OrderItem(c, alice, first, now);
    n := bot.OrderItem(c, bob, second, now);
    n := bot.OrderItem(c, alice, third, now);
  }
}

# Foody group-order coordinator, modelled in Dafny

Foody is a chat bot. On each channel, users build one shared food order for a
restaurant. This project models the bot's coordinator:

- **Two registries**, each keyed by channel id. `groupOrdersDict` holds the channel's
  active group order. `awaitingConfirmationDict` holds the proposal that waits for a
  confirming second request.
- **The start-order protocol.** A start succeeds at once when the channel has no
  active order, or when the active order is older than two hours. Otherwise the first
  request only records a proposal and asks for confirmation. A second request with
  exactly the same restaurant name confirms and overwrites. A request with another
  name replaces the proposal.
- **Per-user entries** in the active order's insertion-ordered map. A user can order
  again, which overwrites their entry and keeps its place. A user can also leave.
- **The two texts** built from the entries: the order listing and the tag message.

Layout, one module per file:

- `settings.dfy` (`Settings`): the two-hour threshold.
- `orders.dfy` (`Orders`): users, orders, group orders, and the insertion-ordered
  map. The map is a sequence of entries with distinct users. Users are compared by
  id, as the chat library compares members. `Put` is key assignment and `Remove` is
  `pop`.
- `listing.dfy` (`Listing`): the listing and tag texts. Each is specified by a
  function over the entries and built by a loop method, as in the source.
- `notices.dfy` (`Notices`): every message the bot sends, with its exact wording,
  and where it goes (the channel, or privately to a user).
- `lifecycle.dfy` (`Lifecycle`): the registries as a value, the three predicates
  of the protocol, one function per command, and the lemmas about them.
- `commands.dfy` (`Commands`): class `Foody`, whose two map fields are the
  registries. Its methods are the source's command handlers and update the fields
  in place. The five command methods (`StartNewOrder`, `OrderItem`,
  `ListOrdersInCurrentGroupOrder`, `SendMessageAndTagUsersInCurrentOrder` and
  `LeaveCurrentOrder`) have postconditions that tie the new fields and the sent
  message to the matching `Lifecycle` function. The constructor and the helpers
  (`InitializeNewOrder`, `SendConfirmationRequest`, `AddItemToOrder` and
  `RemoveUserFromOrder`) state the new fields and the message directly.

The clock is a parameter `now`: an integer count of seconds. Each handler returns
the message it would send.

Two details of the source's wording are kept as written:

- The empty-listing text is `No orders placed`, with a capital N (foody.py:137).
- The tag message puts a space after every mention, including the last one
  (foody.py:173).

## Model

| member | source | states |
|---|---|---|
| `Orders.NewGroupOrder` | foody.py:36-39 | A new group order has the given restaurant name, the current time as its timestamp, and no entries. |
| `Orders.Put` | foody.py:112 | Key assignment adds at most one entry. Every existing entry keeps its position and its stored user. A new entry goes last and holds the author with the new order. |
| `Orders.Remove` | foody.py:196 | `pop` shortens the map by one exactly when the user had an entry, and otherwise leaves its length alone. It only drops entries and never adds any. |
| `Orders.PutLookup` | foody.py:110-112 | After an order is placed, the author's entry is the new order and every other user's entry (any other id) is unchanged. |
| `Orders.PutKeys` | foody.py:112 | Placing an order keeps the iteration order. A user who already ordered keeps the position of their first insertion. A new user is appended last. |
| `Orders.PutDistinct` | foody.py:112 | Placing an order never gives a user a second entry. |
| `Orders.RenamedUserKeepsOneEntry` | foody.py:112 | A user who orders again after changing display name or mention still has a single entry. The entry keeps the user as first inserted and holds the new order. |
| `Orders.RemoveLookup` | foody.py:196 | After `pop`, the user has no entry and every other user's entry (any other id) is unchanged. |
| `Orders.RemoveKeys` | foody.py:196 | `pop` removes exactly the user's key and keeps the other keys in order. It changes nothing when the user is absent. |
| `Orders.RemoveDistinct` | foody.py:196 | `pop` keeps users distinct. |
| `Listing.GenerateOrdersListString` | foody.py:135-141 | The loop builds the listing body: `No orders placed` when there are no entries, otherwise one `display_name: content` line per entry in iteration order. |
| `Listing.GenerateOrderListMessageString` | foody.py:144-148 | The listing message is the restaurant header, then the body between triple backticks. |
| `Listing.GenerateTagMessageString` | foody.py:170-174 | The loop builds the tag message: the text, a blank line, then each entrant's mention followed by a space, in iteration order. |
| `Listing.LinesAppend` | foody.py:139-140 | Each entry contributes its own line: the lines of a concatenation are the concatenation of the lines. |
| `Listing.LinesSplit` | foody.py:139-140 | Entry k gives exactly the k-th line, between the lines of the entries before it and after it. |
| `Listing.LinesAfterPut` | foody.py:112 | Ordering again replaces the user's line in place, under the display name stored at first insertion. A first order adds a line at the end. No other line changes. |
| `Listing.ListingOfTwo` | foody.py:139-141 | Entries A then B are listed as A's line followed by B's line. |
| `Listing.LinesCount` | foody.py:139-141 | When names and contents are single-line, the listing has exactly as many line breaks as entries. |
| `Listing.NoOrdersPlacedIff` | foody.py:136-137 | The body equals `No orders placed` if and only if there are no entries. |
| `Listing.MentionsOfKeys` | foody.py:172-173 | The mentions depend only on who is in the order and in which order, not on what they ordered. |
| `Listing.TagMessageAfterPut` | foody.py:170-174 | Ordering again leaves the tag message unchanged. A first order appends one mention. |
| `Notices.DecimalString` | foody.py:86-87 | The rendering of a count is a non-empty string of decimal digits. It is one digit long exactly for values below ten, and a longer rendering never starts with `0`. |
| `Notices.DecimalRoundTrip` | foody.py:86-87 | Reading the rendered count back gives the count. |
| `Notices.ConfirmationRequestCount` | foody.py:86-90 | Different counts of already placed orders give different confirmation requests. |
| `Lifecycle.OrderOldEnoughToOverwrite` | foody.py:80-81 | An order is stale exactly when its creation time plus 2*3600 seconds lies strictly before now. A stale order was created in the past. |
| `Lifecycle.OrderAwaitsConfirmation` | foody.py:65-67 | True only when the channel has a pending proposal. When it has one, true exactly when the proposal's restaurant name equals the requested one. |
| `Lifecycle.OrderNeedsConfirmation` | foody.py:70-81 | Confirmation is needed exactly when the channel has an active order, that order is at most 2*3600 seconds old, and no pending proposal has exactly the requested name. |
| `Lifecycle.StartOrder` | foody.py:102-106 | A start touches only its own channel in both registries. Afterwards the channel has an active order. The answer goes to the channel. |
| `Lifecycle.PlaceOrder` | foody.py:128-132 | Ordering touches only its own channel's active order. No channel gains or loses an active order and no proposal changes. With an active order the receipt goes privately to the author. Without one nothing changes and the answer goes to the channel. |
| `Lifecycle.ListOrders` | foody.py:163-167 | The answer goes to the channel. It is the no-active-order notice exactly when the channel has no active order. An order nobody has joined is listed as its restaurant header followed by `No orders placed` between triple backticks. |
| `Lifecycle.TagOrder` | foody.py:188-192 | The answer goes to the channel. With an active order it starts with the given text and a blank line, and it is exactly that when nobody has joined. |
| `Lifecycle.LeaveOrder` | foody.py:208-212 | Leaving touches only its own channel's active order. No channel gains or loses an active order and no proposal changes. With an active order the answer goes privately to the author. Without one nothing changes and the answer goes to the channel. |
| `Lifecycle.StartOrderEffect` | foody.py:102-106 | A proposal is pending afterwards exactly when confirmation was needed. In that case the active order is unchanged, the proposal is empty with the requested name, and the notice reports the entry count of the active order. Otherwise the active order is fresh for the name. Other channels are untouched in both registries. |
| `Lifecycle.TwoIdenticalStartsOverwrite` | foody.py:59-77 | On a recent order, the first request for R only records the proposal. The identical second request installs a fresh order for R and clears the proposal. |
| `Lifecycle.MismatchedStartReplacesPending` | foody.py:84-85 | A request for another restaurant replaces the pending proposal and leaves the active order alone. |
| `Lifecycle.StaleOrNoOrderStartsAtOnce` | foody.py:70-74 | With no active order, or a stale one, a start overwrites at once, whatever proposal is pending, and clears the proposal. |
| `Lifecycle.PlaceOrderFrame` | foody.py:128-132 | Ordering changes only the channel's entries, also on a stale order. The receipt's warning is the staleness measured before the write. |
| `Lifecycle.PlaceOrderEntries` | foody.py:109-112 | Ordering sets the author's entry and keeps the entry of every user with another id. A returning author keeps their place. |
| `Lifecycle.LeaveOrderEffect` | foody.py:195-212 | Leaving drops exactly the author's entry, keeps the other entries in their iteration order, and sends the "left" notice. An absent author changes nothing and gets the not-a-member notice. The group order stays registered even when it becomes empty. |
| `Lifecycle.NoActiveOrderGuards` | foody.py:128-210 | Without an active order, the order, list, tag and leave commands send `No active group order on this channel` and change neither registry. |
| `Lifecycle.StartOrderPreservesWellFormed` | foody.py:59-90 | Starting keeps users distinct within each active order and keeps every pending proposal empty. |
| `Lifecycle.PlaceOrderPreservesWellFormed` | foody.py:109-132 | Ordering keeps users distinct within each active order and keeps every pending proposal empty. |
| `Lifecycle.LeaveOrderPreservesWellFormed` | foody.py:195-212 | Leaving keeps users distinct within each active order and keeps every pending proposal empty. |
| `Commands.Foody.constructor` | foody.py:55-56 | At start-up both registries are empty. |
| `Commands.Foody.InitializeNewOrder` | foody.py:59-62 | Clears the channel's proposal, installs a fresh order, and announces it. |
| `Commands.Foody.SendConfirmationRequest` | foody.py:84-90 | Records an empty proposal, replacing any earlier one. Leaves the active orders alone and reports the current entry count. |
| `Commands.Foody.StartNewOrder` | foody.py:102-106 | Updates the registries and sends the message exactly as `Lifecycle.StartOrder` says. |
| `Commands.Foody.AddItemToOrder` | foody.py:109-118 | Assigns the author's entry in place and writes the receipt, with the warning when the flag is set. |
| `Commands.Foody.OrderItem` | foody.py:128-132 | Behaves exactly as `Lifecycle.PlaceOrder`. The warning flag is taken before the write. |
| `Commands.Foody.ListOrdersInCurrentGroupOrder` | foody.py:163-167 | Sends exactly `Lifecycle.ListOrders`: the listing message, or the no-active-order notice. |
| `Commands.Foody.SendMessageAndTagUsersInCurrentOrder` | foody.py:188-192 | Sends exactly `Lifecycle.TagOrder`: the tag message, or the no-active-order notice. |
| `Commands.Foody.RemoveUserFromOrder` | foody.py:195-200 | Pops the user's entry in place and sends the "left" notice or the not-a-member notice, depending on whether the user had an entry. |
| `Commands.Foody.LeaveCurrentOrder` | foody.py:208-212 | Behaves exactly as `Lifecycle.LeaveOrder`. |
| `Commands.ConfirmedOverwriteSession` | foody.py:102-106 | Two identical start requests on a recent order leave a fresh order for the restaurant and no pending proposal. |
| `Commands.ReorderSession` | foody.py:121-132 | Alice orders, Bob orders, then Alice orders again. The result is Alice's new order followed by Bob's. |

## Left out

- The Discord wiring: the help command class, the bot object and its activity, the command decorators and help texts, and `bot.run` with its token. These are framework glue over a library that is not part of this model.
- `async`/`await` and message delivery. Each handler returns the message it would send, with its destination. Delivery failures are not modelled.
- The wall clock. `time()` returns a float. The model takes `now` as an integer number of seconds, so fractional ages are not modelled.
- How Discord renders users and channels. A user is a value with an id, a display name and a mention string. A channel is a value with an id and a name. Two users, or two channels, are the same exactly when their ids are equal, and the registries are keyed by channel id.
- Orders.Put: on an existing key the stored user keeps the display name and mention it had at first insertion, as a dictionary keeps its original key object. Discord updating that cached member object in place is not modelled, so after a rename the listing and the tag message show the old name and mention.
- In-place mutation of a `GroupOrder` object. The source updates the active order's `OrderedDict` through a reference taken from the registry. The model replaces the order value in the registry instead. The registry is the only holder of an active order, so the two are indistinguishable, but aliasing itself is not modelled.
- `list_orders_in_group_order` and `send_message_and_tag_users_in_order` only send a text. They are folded into the list and tag command methods.
- Concurrency between channels. Commands are processed one at a time.

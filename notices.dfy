/**
 * The messages the coordinator sends, with their exact wording, and where each goes:
 * to the channel the command came from, or privately to a user.
 */
module Notices {
  import opened Orders
  import opened Settings

  datatype Notice = ToChannel(text: string) | ToUser(user: User, text: string)

  /** The decimal digit of a value below ten. */
  function Digit(d: nat): (c: char)
    requires d < 10
    ensures '0' <= c <= '9'
  {
    (('0' as int) + d) as char
  }

  /** The decimal rendering of a natural number, as string formatting produces it. */
  function DecimalString(n: nat): (s: string)
    ensures |s| >= 1
    ensures forall i :: 0 <= i < |s| ==> '0' <= s[i] <= '9'
    ensures n < 10 <==> |s| == 1
    ensures |s| > 1 ==> s[0] != '0'
  {
    if n < 10 then [Digit(n)] else DecimalString(n / 10) + [Digit(n % 10)]
  }

  /** The number a string of decimal digits denotes. */
  function DecimalValue(s: string): nat
    requires forall i :: 0 <= i < |s| ==> '0' <= s[i] <= '9'
  {
    if s == [] then 0
    else 10 * DecimalValue(s[..|s| - 1]) + (s[|s| - 1] as int - '0' as int)
  }

  /** Rendering a count and reading it back gives the count. */
  lemma {:induction false} DecimalRoundTrip(n: nat)
    ensures DecimalValue(DecimalString(n)) == n
  {
    var s := DecimalString(n);
    if n >= 10 {
      assert s[..|s| - 1] == DecimalString(n / 10);
      DecimalRoundTrip(n / 10);
    }
  }

  const NoActiveOrderText := "No active group order on this channel"

  function TakingOrdersText(restaurantName: string): string {
    "Taking orders for **" + restaurantName + "**\n@here"
  }

  /** The text of the confirmation request before the count of orders already placed. */
  const ConfirmationRequestHead := "There is a recent (not older than " + DecimalString(ConfirmationNeededTimeThreshold)
    + " hour(s)) group order active in this channel with "

  /** The text of the confirmation request after the count. */
  const ConfirmationRequestTail := " order(s) already placed.\n"
    + "You can use a different channel to initialize your group order or "
    + "overwrite the current one by sending the same request again."

  /** Asks for confirmation, naming the threshold and how many orders the current group order has. */
  function ConfirmationRequestText(placedOrders: nat): string {
    ConfirmationRequestHead + DecimalString(placedOrders) + ConfirmationRequestTail
  }

  function OrderReceiptHead(orderContent: string, restaurantName: string, channelName: string): string {
    "You've just ordered ```" + orderContent + "``` from **" + restaurantName + "** "
    + "on the \"" + channelName + "\" channel.\n\n"
  }

  /** The warning appended to the receipt when the active order is stale. */
  const StaleOrderWarning := "WARNING: The order has been placed but note that the currently active group order "
    + "on this channel is older than " + DecimalString(ConfirmationNeededTimeThreshold) + " hour(s)."

  /** The private receipt for an order, with the staleness warning appended when asked for. */
  function OrderReceiptText(orderContent: string, restaurantName: string, channelName: string, withWarning: bool): string {
    OrderReceiptHead(orderContent, restaurantName, channelName) + (if withWarning then StaleOrderWarning else "")
  }

  /**
   * A proof hint for `Commands.Foody.AddItemToOrder`, which builds the receipt in two
   * steps: the receipt with and without the warning, unfolded.
   */
  lemma ReceiptParts(orderContent: string, restaurantName: string, channelName: string)
    ensures OrderReceiptText(orderContent, restaurantName, channelName, false) == OrderReceiptHead(orderContent, restaurantName, channelName)
    ensures OrderReceiptText(orderContent, restaurantName, channelName, true)
         == OrderReceiptHead(orderContent, restaurantName, channelName) + StaleOrderWarning
  {
  }

  function NotAMemberText(channelName: string): string {
    "You've just tried to leave a group order you are not a part of (on the \"" + channelName + "\" channel)."
  }

  function LeftOrderText(restaurantName: string, channelName: string): string {
    "You've just left a group order for **" + restaurantName + "** on the \"" + channelName + "\" channel."
  }

  /** A text with a fixed head and tail determines what lies between them. */
  lemma CancelHeadTail(head: string, x: string, y: string, tail: string)
    requires head + x + tail == head + y + tail
    ensures x == y
  {
    var t := head + x + tail;
    assert |x| == |y|;
    assert x == t[|head|..|head| + |x|];
  }

  /** The confirmation request determines the count it reports. */
  lemma ConfirmationRequestCount(m: nat, n: nat)
    requires ConfirmationRequestText(m) == ConfirmationRequestText(n)
    ensures m == n
  {
    CancelHeadTail(ConfirmationRequestHead, DecimalString(m), DecimalString(n), ConfirmationRequestTail);
    DecimalRoundTrip(m);
    DecimalRoundTrip(n);
  }
}

/**
 * Group orders and the insertion-ordered map of per-user orders each one holds.
 *
 * The ordered map is a sequence of entries; its iteration order is the sequence order.
 * Users are compared by `id` only, as the chat platform compares member objects, so a
 * user whose display name or mention has changed is still the same key. `Put` and
 * `Remove` are the two mutations the coordinator applies to the map (key assignment and
 * `pop`), with the semantics of an insertion-ordered dictionary: assigning an existing
 * key keeps the key's position and the key object stored at first insertion.
 */
module Orders {

  datatype Option<+T> = None | Some(value: T)

  /** A chat user: `id` is the identity, the two strings are how the user is rendered. */
  datatype User = User(id: nat, displayName: string, mention: string)

  /** One user's order: opaque text, replaced wholesale when the user orders again. */
  datatype Order = Order(orderContent: string)

  datatype Entry = Entry(user: User, order: Order)

  /** An insertion-ordered map from users to their orders. */
  type OrdersDict = seq<Entry>

  /** One group order on one channel; `timestamp` is the clock reading at creation. */
  datatype GroupOrder = GroupOrder(restaurantName: string, timestamp: int, ordersDict: OrdersDict)

  /** A group order as created: the given restaurant, created now, nobody has ordered yet. */
  function NewGroupOrder(restaurantName: string, now: int): (g: GroupOrder)
    ensures g.restaurantName == restaurantName && g.timestamp == now
    ensures |g.ordersDict| == 0
  {
    GroupOrder(restaurantName, now, [])
  }

  /** Each user has at most one entry. */
  predicate DistinctUsers(es: OrdersDict) {
    forall i, j :: 0 <= i < j < |es| ==> es[i].user.id != es[j].user.id
  }

  /** `u` (by identity) has an entry. */
  predicate Contains(es: OrdersDict, u: User) {
    exists k :: 0 <= k < |es| && es[k].user.id == u.id
  }

  /** The stored key objects, in iteration order. */
  function Keys(es: OrdersDict): seq<User> {
    seq(|es|, i requires 0 <= i < |es| => es[i].user)
  }

  /** The position of `u` in iteration order, or `|es|` when `u` has no entry. */
  function Find(es: OrdersDict, u: User): (i: nat)
    ensures i <= |es|
    ensures i < |es| ==> es[i].user.id == u.id
    ensures forall j :: 0 <= j < i ==> es[j].user.id != u.id
  {
    if es == [] then 0
    else if es[0].user.id == u.id then 0
    else 1 + Find(es[1..], u)
  }

  /** The order stored for `u`, if any. */
  function Get(es: OrdersDict, u: User): Option<Order> {
    var i := Find(es, u);
    if i < |es| then Some(es[i].order) else None
  }

  /**
   * Key assignment `es[u] = o`: an existing key keeps its place (and its stored key
   * object), a new key goes last.
   */
  function Put(es: OrdersDict, u: User, o: Order): (r: OrdersDict)
    ensures |es| <= |r| <= |es| + 1
    ensures forall k :: 0 <= k < |es| ==> r[k].user == es[k].user
    ensures |r| == |es| + 1 ==> r[|es|] == Entry(u, o)
  {
    var i := Find(es, u);
    if i < |es| then es[i := Entry(es[i].user, o)] else es + [Entry(u, o)]
  }

  /** `pop(u, None)`: removes the entry of `u` if there is one. */
  function Remove(es: OrdersDict, u: User): (r: OrdersDict)
    ensures |r| == if Contains(es, u) then |es| - 1 else |es|
    ensures multiset(r) <= multiset(es)
  {
    var i := Find(es, u);
    if i < |es| then
      assert es == es[..i] + [es[i]] + es[i + 1..];
      es[..i] + es[i + 1..]
    else es
  }

  /** `Find` returns the first position holding `u`; any such position determines it. */
  lemma FindIs(es: OrdersDict, u: User, k: nat)
    requires k <= |es|
    requires k < |es| ==> es[k].user.id == u.id
    requires forall j :: 0 <= j < k ==> es[j].user.id != u.id
    ensures Find(es, u) == k
  {
  }

  /** `u` has an entry exactly when `Find` lands inside the map. */
  lemma FindContains(es: OrdersDict, u: User)
    ensures Find(es, u) < |es| <==> Contains(es, u)
  {
  }

  /** After `Put`, `u` holds the new order and every other user's order is what it was. */
  lemma {:induction false} PutLookup(es: OrdersDict, u: User, o: Order, v: User)
    ensures Get(Put(es, u, o), u) == Some(o)
    ensures v.id != u.id ==> Get(Put(es, u, o), v) == Get(es, v)
  {
    var i := Find(es, u);
    var r := Put(es, u, o);
    FindIs(r, u, i);
    if v.id != u.id {
      var k := Find(es, v);
      if i < |es| {
        FindIs(r, v, k);
      } else if k < |es| {
        FindIs(r, v, k);
      } else {
        FindIs(r, v, |r|);
      }
    }
  }

  /**
   * `Put` keeps the iteration order: a user who already had an entry keeps the
   * position (and the stored key) of their first insertion; a new user is appended last.
   */
  lemma PutKeys(es: OrdersDict, u: User, o: Order)
    ensures Keys(Put(es, u, o)) == if Contains(es, u) then Keys(es) else Keys(es) + [u]
    ensures Contains(es, u) ==> Find(Put(es, u, o), u) == Find(es, u)
  {
    FindContains(es, u);
    var i := Find(es, u);
    if i < |es| {
      FindIs(Put(es, u, o), u, i);
    }
  }

  /** `Put` never gives a user a second entry. */
  lemma PutDistinct(es: OrdersDict, u: User, o: Order)
    requires DistinctUsers(es)
    ensures DistinctUsers(Put(es, u, o))
  {
  }

  /** A user who orders again under a new display name or mention still has one entry. */
  lemma RenamedUserKeepsOneEntry(u: User, renamed: User, o1: Order, o2: Order)
    requires renamed.id == u.id
    ensures Put(Put([], u, o1), renamed, o2) == [Entry(u, o2)]
  {
    FindIs([Entry(u, o1)], renamed, 0);
  }

  /**
   * After `Remove`, `u` has no entry, and every other user's order is what it was.
   */
  lemma {:induction false} RemoveLookup(es: OrdersDict, u: User, v: User)
    requires DistinctUsers(es)
    ensures Get(Remove(es, u), u) == None
    ensures v.id != u.id ==> Get(Remove(es, u), v) == Get(es, v)
  {
    var i := Find(es, u);
    var r := Remove(es, u);
    if i < |es| {
      assert forall j :: 0 <= j < |r| ==> r[j] == if j < i then es[j] else es[j + 1];
      FindIs(r, u, |r|);
      if v.id != u.id {
        var k := Find(es, v);
        if k < |es| {
          FindIs(r, v, if k < i then k else k - 1);
        } else {
          FindIs(r, v, |r|);
        }
      }
    }
  }

  /** The keys of a concatenation are the concatenation of the keys. */
  lemma KeysConcat(a: OrdersDict, b: OrdersDict)
    ensures Keys(a + b) == Keys(a) + Keys(b)
  {
  }

  /** The keys of a slice are the slice of the keys. */
  lemma KeysSlice(es: OrdersDict, i: nat, j: nat)
    requires i <= j <= |es|
    ensures Keys(es[i..j]) == Keys(es)[i..j]
  {
  }

  /** `Remove` drops exactly the key of `u`, if present, and keeps the others in order. */
  lemma RemoveKeys(es: OrdersDict, u: User)
    ensures Contains(es, u) ==> Keys(Remove(es, u)) == Keys(es)[..Find(es, u)] + Keys(es)[Find(es, u) + 1..]
    ensures !Contains(es, u) ==> Remove(es, u) == es
  {
    FindContains(es, u);
    var i := Find(es, u);
    if i < |es| {
      KeysConcat(es[..i], es[i + 1..]);
      KeysSlice(es, 0, i);
      KeysSlice(es, i + 1, |es|);
      assert es[0..i] == es[..i] && es[i + 1..|es|] == es[i + 1..];
      assert Keys(es)[0..i] == Keys(es)[..i] && Keys(es)[i + 1..|es|] == Keys(es)[i + 1..];
    }
  }

  /** `Remove` keeps users distinct. */
  lemma RemoveDistinct(es: OrdersDict, u: User)
    requires DistinctUsers(es)
    ensures DistinctUsers(Remove(es, u))
  {
    var i := Find(es, u);
    if i < |es| {
      var r := Remove(es, u);
      assert forall j :: 0 <= j < |r| ==> r[j] == es[if j < i then j else j + 1];
    }
  }
}

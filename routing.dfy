/** Delivery of client datagrams: each sender address is bound to one tank
    on its first message, and every code is written into the mailbox of
    the sender's tank. */
module Routing {
  import opened Options
  import opened Tanks
  import opened SockAddrs

  /** One datagram: the sender and the first two bytes received. */
  datatype Message = Message(from: SockAddr, code0: char, code1: char)

  /** The routing state of the world: bound addresses and unbound tanks. */
  datatype Binding = Binding(addrToTank: map<SockAddr, nat>, freeTanks: seq<nat>)

  /** Ids index an arena of n tanks, no tank is bound to two addresses, and
      a free tank is bound to none and listed once. */
  ghost predicate BindingOk(st: Binding, n: nat) {
    && (forall a :: a in st.addrToTank ==> st.addrToTank[a] < n)
    && (forall a, a' :: a in st.addrToTank && a' in st.addrToTank && st.addrToTank[a] == st.addrToTank[a'] ==> a == a')
    && (forall k :: 0 <= k < |st.freeTanks| ==> st.freeTanks[k] < n && st.freeTanks[k] !in st.addrToTank.Values)
    && (forall k, l :: 0 <= k < l < |st.freeTanks| ==> st.freeTanks[k] != st.freeTanks[l])
  }

  /** The assignment loop: ids are popped from the back of the free list
      until one whose tank is not destroyed comes out; destroyed ones are
      dropped on the way. */
  function Claim(free: seq<nat>, destroyed: seq<bool>): (r: (Option<nat>, seq<nat>))
    requires forall k :: 0 <= k < |free| ==> free[k] < |destroyed|
    ensures |r.1| <= |free|
    ensures r.0.Some? ==> r.0.value < |destroyed| && !destroyed[r.0.value]
    decreases |free|
  {
    if free == [] then (None, [])
    else
      var t := free[|free| - 1];
      if !destroyed[t] then (Some(t), free[..|free| - 1])
      else Claim(free[..|free| - 1], destroyed)
  }

  /** What the assignment loop leaves: a prefix of the free list, the id
      just before it if a tank was found, and only destroyed tanks in
      between. */
  lemma {:induction false} ClaimFacts(free: seq<nat>, destroyed: seq<bool>)
    requires forall k :: 0 <= k < |free| ==> free[k] < |destroyed|
    ensures var r := Claim(free, destroyed);
      && r.1 == free[..|r.1|]
      && (r.0.Some? ==> |r.1| < |free| && r.0.value == free[|r.1|] && !destroyed[r.0.value])
      && (r.0.None? ==> r.1 == [])
      && (forall k :: |r.1| + (if r.0.Some? then 1 else 0) <= k < |free| ==> destroyed[free[k]])
    decreases |free|
  {
    if free != [] {
      var t := free[|free| - 1];
      if destroyed[t] {
        var r := Claim(free[..|free| - 1], destroyed);
        ClaimFacts(free[..|free| - 1], destroyed);
        assert free[..|free| - 1][..|r.1|] == free[..|r.1|];
      }
    }
  }

  /** The tank a message from `from` is for, if any, and the routing state
      after it. */
  function Route(st: Binding, destroyed: seq<bool>, from: SockAddr): (r: (Binding, Option<nat>))
    requires BindingOk(st, |destroyed|)
    ensures r.1.Some? ==> r.1.value < |destroyed| && !destroyed[r.1.value]
  {
    if from in st.addrToTank then
      var id := st.addrToTank[from];
      (st, if destroyed[id] then None else Some(id))
    else
      var (t, rest) := Claim(st.freeTanks, destroyed);
      match t
      case None => (Binding(st.addrToTank, rest), None)
      case Some(id) => (Binding(st.addrToTank[from := id], rest), Some(id))
  }

  /** Boxes of an arena of n tanks. */
  ghost predicate BoxesOk(boxes: seq<Mailbox>, n: nat) {
    |boxes| == n && forall i :: 0 <= i < |boxes| ==> ValidBox(boxes[i])
  }

  /** One datagram: route it and, if it is for a tank, write its code into
      that tank's mailbox. */
  function Deliver(st: Binding, boxes: seq<Mailbox>, destroyed: seq<bool>, m: Message): (r: (Binding, seq<Mailbox>))
    requires BindingOk(st, |destroyed|) && BoxesOk(boxes, |destroyed|)
    ensures BindingOk(r.0, |destroyed|) && BoxesOk(r.1, |destroyed|)
  {
    RouteKeepsBinding(st, destroyed, m.from);
    var (st', t) := Route(st, destroyed, m.from);
    match t
    case None => (st', boxes)
    case Some(id) => (st', boxes[id := Write(boxes[id], m.code0, m.code1)])
  }

  /** All datagrams waiting on the socket, in arrival order. */
  function ReceiveAll(st: Binding, boxes: seq<Mailbox>, destroyed: seq<bool>, msgs: seq<Message>): (r: (Binding, seq<Mailbox>))
    requires BindingOk(st, |destroyed|) && BoxesOk(boxes, |destroyed|)
    ensures BindingOk(r.0, |destroyed|) && BoxesOk(r.1, |destroyed|)
    decreases |msgs|
  {
    if msgs == [] then (st, boxes)
    else
      var (st', boxes') := ReceiveAll(st, boxes, destroyed, msgs[..|msgs| - 1]);
      Deliver(st', boxes', destroyed, msgs[|msgs| - 1])
  }

  /** Routing keeps the binding invariant: in particular two addresses
      never control the same tank. */
  lemma RouteKeepsBinding(st: Binding, destroyed: seq<bool>, from: SockAddr)
    requires BindingOk(st, |destroyed|)
    ensures BindingOk(Route(st, destroyed, from).0, |destroyed|)
  {
    if from !in st.addrToTank {
      ClaimFacts(st.freeTanks, destroyed);
      var (t, rest) := Claim(st.freeTanks, destroyed);
      if t.Some? {
        var id := t.value;
        assert id == st.freeTanks[|rest|];
        assert id !in st.addrToTank.Values;
        assert forall k :: 0 <= k < |rest| ==> rest[k] == st.freeTanks[k] && rest[k] != id;
      }
    }
  }

  /** A message from a bound address goes to its tank while that tank is
      not destroyed and is dropped afterwards; nothing else changes. */
  lemma RouteKnown(st: Binding, destroyed: seq<bool>, from: SockAddr)
    requires BindingOk(st, |destroyed|) && from in st.addrToTank
    ensures var r := Route(st, destroyed, from);
      r.0 == st && (r.1.Some? <==> !destroyed[st.addrToTank[from]])
      && (r.1.Some? ==> r.1.value == st.addrToTank[from])
  {
  }

  /** A message from a new address binds it to the last free tank that is
      not destroyed; the destroyed free tanks behind it are dropped from the
      free list. Without such a tank the message is ignored and the free
      list ends empty. */
  lemma RouteNew(st: Binding, destroyed: seq<bool>, from: SockAddr)
    requires BindingOk(st, |destroyed|) && from !in st.addrToTank
    ensures var r := Route(st, destroyed, from);
      var free := st.freeTanks;
      match r.1
      case Some(id) =>
        exists k :: 0 <= k < |free| && free[k] == id && !destroyed[id]
          && (forall l :: k < l < |free| ==> destroyed[free[l]])
          && r.0 == Binding(st.addrToTank[from := id], free[..k])
      case None =>
        (forall l :: 0 <= l < |free| ==> destroyed[free[l]])
        && r.0 == Binding(st.addrToTank, [])
  {
    ClaimFacts(st.freeTanks, destroyed);
    var (t, rest) := Claim(st.freeTanks, destroyed);
    if t.Some? {
      assert st.freeTanks[|rest|] == t.value;
    }
  }

  /** Delivery of a message from a new address, in terms of the
      assignment loop; the binding it leaves keeps the invariant. */
  lemma DeliverNew(st: Binding, boxes: seq<Mailbox>, destroyed: seq<bool>, m: Message)
    requires BindingOk(st, |destroyed|) && BoxesOk(boxes, |destroyed|) && m.from !in st.addrToTank
    ensures var c := Claim(st.freeTanks, destroyed);
      var st' := if c.0.Some? then Binding(st.addrToTank[m.from := c.0.value], c.1) else Binding(st.addrToTank, c.1);
      && BindingOk(st', |destroyed|)
      && Deliver(st, boxes, destroyed, m) ==
        (st', if c.0.Some? then boxes[c.0.value := Write(boxes[c.0.value], m.code0, m.code1)] else boxes)
  {
    RouteKeepsBinding(st, destroyed, m.from);
  }

  /** Whoever a message is for afterwards controls a tank that is not
      destroyed, and its code is what that tank's mailbox holds behind the
      current half. */
  lemma DeliverWrites(st: Binding, boxes: seq<Mailbox>, destroyed: seq<bool>, m: Message)
    requires BindingOk(st, |destroyed|) && BoxesOk(boxes, |destroyed|)
    ensures var r := Deliver(st, boxes, destroyed, m);
      (r.1 != boxes ==>
        && m.from in r.0.addrToTank && !destroyed[r.0.addrToTank[m.from]]
        && var id := r.0.addrToTank[m.from];
           r.1 == boxes[id := Write(boxes[id], m.code0, m.code1)])
  {
  }

  /** A new tank appended to the free list keeps the binding well formed. */
  lemma AddFreeKeepsBinding(st: Binding, n: nat)
    requires BindingOk(st, n)
    ensures BindingOk(Binding(st.addrToTank, st.freeTanks + [n]), n + 1)
  {
    assert n !in st.addrToTank.Values;
  }
}

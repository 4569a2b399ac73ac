/** One chat room: its name, its subscriber list, and the fault-evicting
    broadcast of a published message (ChatServer). */
module Room {

  /** The callback handle of a subscribed client (a remote CommandsFromServer
      stub). Two handles denote the same client exactly when they are equal. */
  datatype ClientHandle = ClientHandle(id: nat)

  /** One remote `receiveMsg(room, text)` call made by a broadcast. */
  datatype Delivery = Delivery(client: ClientHandle, room: string, text: string)

  /** The text a room broadcasts for `message` sent by `publisher`:
      the publisher's name, a colon and a space, then the message. */
  function FormatMessage(publisher: string, message: string): (text: string)
    ensures |text| == |publisher| + 2 + |message|
    ensures text[..|publisher|] == publisher
    ensures text[|publisher|..|publisher| + 2] == ": "
    ensures text[|publisher| + 2..] == message
  {
    publisher + ": " + message
  }

  /** The deliveries a broadcast of `text` in `room` attempts, one per
      entry of `clients`, in list order. */
  function Broadcast(clients: seq<ClientHandle>, room: string, text: string): (attempts: seq<Delivery>)
    ensures |attempts| == |clients|
    ensures forall i :: 0 <= i < |clients| ==> attempts[i] == Delivery(clients[i], room, text)
  {
    if clients == [] then []
    else Broadcast(clients[..|clients| - 1], room, text) + [Delivery(clients[|clients| - 1], room, text)]
  }

  /** The clients addressed by a sequence of deliveries, in order. */
  function Recipients(attempts: seq<Delivery>): (clients: seq<ClientHandle>)
    ensures |clients| == |attempts|
    ensures forall i :: 0 <= i < |attempts| ==> clients[i] == attempts[i].client
  {
    if attempts == [] then []
    else Recipients(attempts[..|attempts| - 1]) + [attempts[|attempts| - 1].client]
  }

  /** The entries of `clients` whose delivery succeeded (`delivered[i]`),
      in their original order: what a broadcast leaves subscribed. */
  function Survivors(clients: seq<ClientHandle>, delivered: seq<bool>): (kept: seq<ClientHandle>)
    requires |delivered| == |clients|
  {
    if clients == [] then []
    else
      var n := |clients| - 1;
      Survivors(clients[..n], delivered[..n]) + (if delivered[n] then [clients[n]] else [])
  }

  /** The number of failed deliveries. */
  function Failures(delivered: seq<bool>): (n: nat)
    ensures n <= |delivered|
    ensures n == multiset(delivered)[false]
  {
    if delivered == [] then 0
    else
      var last := |delivered| - 1;
      assert delivered == delivered[..last] + [delivered[last]];
      Failures(delivered[..last]) + (if delivered[last] then 0 else 1)
  }

  /** The positions whose delivery succeeded, in increasing order. */
  function SuccessIndices(delivered: seq<bool>): (idx: seq<nat>)
  {
    if delivered == [] then []
    else
      var n := |delivered| - 1;
      SuccessIndices(delivered[..n]) + (if delivered[n] then [n] else [])
  }

  /** Every subscriber entry of a broadcast is attempted exactly once,
      in list order; the publisher's own entry is no exception. */
  lemma BroadcastRecipients(clients: seq<ClientHandle>, room: string, text: string)
    ensures Recipients(Broadcast(clients, room, text)) == clients
  {
  }

  /** A broadcast shrinks the list by exactly the number of failed
      deliveries: it never grows it. */
  lemma {:induction false} SurvivorsLength(clients: seq<ClientHandle>, delivered: seq<bool>)
    requires |delivered| == |clients|
    ensures |Survivors(clients, delivered)| == |clients| - Failures(delivered)
  {
    if clients != [] {
      var n := |clients| - 1;
      SurvivorsLength(clients[..n], delivered[..n]);
    }
  }

  /** A client stays subscribed exactly when one of its entries was
      delivered to. */
  lemma {:induction false} SurvivorsMembership(clients: seq<ClientHandle>, delivered: seq<bool>, c: ClientHandle)
    requires |delivered| == |clients|
    ensures c in Survivors(clients, delivered) <==>
            exists i :: 0 <= i < |clients| && clients[i] == c && delivered[i]
  {
    if clients != [] {
      var n := |clients| - 1;
      SurvivorsMembership(clients[..n], delivered[..n], c);
      if c in Survivors(clients, delivered) {
        if c in Survivors(clients[..n], delivered[..n]) {
          var i :| 0 <= i < n && clients[..n][i] == c && delivered[..n][i];
          assert clients[i] == c && delivered[i];
        } else {
          assert clients[n] == c && delivered[n];
        }
      } else {
        forall i | 0 <= i < |clients| && clients[i] == c
          ensures !delivered[i]
        {
          if i < n {
            assert clients[..n][i] == c;
          }
        }
      }
    }
  }

  /** A client all of whose entries failed is evicted: the next broadcast
      in the room attempts no delivery to it. */
  lemma EvictedNotAttemptedAgain(clients: seq<ClientHandle>, delivered: seq<bool>, c: ClientHandle, room: string, text: string)
    requires |delivered| == |clients|
    requires forall i :: 0 <= i < |clients| && clients[i] == c ==> !delivered[i]
    ensures forall d :: d in Broadcast(Survivors(clients, delivered), room, text) ==> d.client != c
  {
    SurvivorsMembership(clients, delivered, c);
  }

  /** The success positions are strictly increasing, in range, and are
      exactly the positions whose delivery succeeded. */
  lemma {:induction false} SuccessIndicesSpec(delivered: seq<bool>)
    ensures forall k :: 0 <= k < |SuccessIndices(delivered)| ==>
              SuccessIndices(delivered)[k] < |delivered| && delivered[SuccessIndices(delivered)[k]]
    ensures forall k, l :: 0 <= k < l < |SuccessIndices(delivered)| ==>
              SuccessIndices(delivered)[k] < SuccessIndices(delivered)[l]
    ensures forall i :: 0 <= i < |delivered| && delivered[i] ==> i in SuccessIndices(delivered)
  {
    if delivered != [] {
      var n := |delivered| - 1;
      var prefix := delivered[..n];
      SuccessIndicesSpec(prefix);
      assert forall k :: 0 <= k < |SuccessIndices(prefix)| ==> delivered[SuccessIndices(prefix)[k]] == prefix[SuccessIndices(prefix)[k]];
      forall i | 0 <= i < |delivered| && delivered[i]
        ensures i in SuccessIndices(delivered)
      {
        if i < n {
          assert prefix[i];
        }
      }
    }
  }

  /** Order preservation: the k-th survivor is the entry at the k-th
      successful position, so the survivors are the original list filtered
      to its successful entries with their relative order unchanged. */
  lemma {:induction false} SurvivorsAt(clients: seq<ClientHandle>, delivered: seq<bool>)
    requires |delivered| == |clients|
    ensures |Survivors(clients, delivered)| == |SuccessIndices(delivered)|
    ensures forall k :: 0 <= k < |SuccessIndices(delivered)| ==>
              SuccessIndices(delivered)[k] < |clients| &&
              Survivors(clients, delivered)[k] == clients[SuccessIndices(delivered)[k]]
  {
    SuccessIndicesSpec(delivered);
    if clients != [] {
      var n := |clients| - 1;
      SurvivorsAt(clients[..n], delivered[..n]);
      SuccessIndicesSpec(delivered[..n]);
      forall k | 0 <= k < |SuccessIndices(delivered[..n])|
        ensures Survivors(clients, delivered)[k] == clients[SuccessIndices(delivered)[k]]
      {
        assert clients[..n][SuccessIndices(delivered[..n])[k]] == clients[SuccessIndices(delivered)[k]];
      }
    }
  }

  /** When every delivery succeeds the list is left as it was
      (in particular an empty list is left empty). */
  lemma {:induction false} SurvivorsAllDelivered(clients: seq<ClientHandle>, delivered: seq<bool>)
    requires |delivered| == |clients|
    requires forall i :: 0 <= i < |delivered| ==> delivered[i]
    ensures Survivors(clients, delivered) == clients
  {
    if clients != [] {
      var n := |clients| - 1;
      SurvivorsAllDelivered(clients[..n], delivered[..n]);
      assert clients == clients[..n] + [clients[n]];
    }
  }

  /** One more delivery outcome extends the survivors by at most that entry. */
  lemma SurvivorsStep(clients: seq<ClientHandle>, delivered: seq<bool>, k: nat)
    requires |delivered| == |clients| && k < |clients|
    ensures Survivors(clients[..k + 1], delivered[..k + 1]) ==
            Survivors(clients[..k], delivered[..k]) + (if delivered[k] then [clients[k]] else [])
  {
    assert clients[..k + 1][..k] == clients[..k];
    assert delivered[..k + 1][..k] == delivered[..k];
  }

  /** One step of the broadcast's iterator over the list
      `Survivors(original[..k], delivered[..k]) + original[k..]`: the iterator
      stands on `original[k]`; on success it moves past it, on failure
      removing the entry under it leaves the list for `k + 1` processed entries. */
  lemma IteratorStep(original: seq<ClientHandle>, delivered: seq<bool>, k: nat)
    requires |delivered| == |original| && k < |original|
    ensures var kept := Survivors(original[..k], delivered[..k]);
            var list := kept + original[k..];
            var kept' := Survivors(original[..k + 1], delivered[..k + 1]);
            |kept| < |list| && list[|kept|] == original[k] &&
            (delivered[k] ==> |kept'| == |kept| + 1 && list == kept' + original[k + 1..]) &&
            (!delivered[k] ==> |kept'| == |kept| && list[..|kept|] + list[|kept| + 1..] == kept' + original[k + 1..])
  {
    var kept := Survivors(original[..k], delivered[..k]);
    var list := kept + original[k..];
    SurvivorsStep(original, delivered, k);
    assert list[..|kept|] == kept;
    assert list[|kept| + 1..] == original[k + 1..];
    assert original[k..] == [original[k]] + original[k + 1..];
  }

  /** One more attempt extends a broadcast by one delivery at its end. */
  lemma BroadcastStep(clients: seq<ClientHandle>, room: string, text: string, k: nat)
    requires k < |clients|
    ensures Broadcast(clients[..k + 1], room, text) ==
            Broadcast(clients[..k], room, text) + [Delivery(clients[k], room, text)]
  {
  }

  /** Java's `indexOf`: the position of the first entry equal to `c`,
      or -1 when there is none. */
  function IndexOf(clients: seq<ClientHandle>, c: ClientHandle): (i: int)
    ensures -1 <= i < |clients|
    ensures i == -1 <==> c !in clients
    ensures 0 <= i ==> clients[i] == c && c !in clients[..i]
  {
    if clients == [] then -1
    else if clients[0] == c then 0
    else
      var j := IndexOf(clients[1..], c);
      assert j >= 0 ==> clients[..j + 1] == [clients[0]] + clients[1..][..j];
      if j == -1 then -1 else j + 1
  }

  /** Java's `Vector.remove(Object)`: drop the first entry equal to `c`,
      keeping the others in order; nothing changes when `c` is absent. */
  function RemoveFirst(clients: seq<ClientHandle>, c: ClientHandle): (rest: seq<ClientHandle>)
    ensures c !in clients ==> rest == clients
    ensures c in clients ==>
              exists i :: 0 <= i < |clients| && clients[i] == c && c !in clients[..i] &&
                          rest == clients[..i] + clients[i + 1..]
    ensures multiset(rest) == multiset(clients) - multiset{c}
  {
    var i := IndexOf(clients, c);
    if i < 0 then clients
    else
      assert clients == clients[..i] + [clients[i]] + clients[i + 1..];
      clients[..i] + clients[i + 1..]
  }

  /** A chat room server. */
  class ChatServer {
    const roomName: string
    var registeredClients: seq<ClientHandle>

    /** A new room has the given name and no subscribers. */
    constructor (roomName: string)
      ensures this.roomName == roomName
      ensures registeredClients == []
    {
      this.roomName := roomName;
      registeredClients := [];
    }

    /** Broadcasts `publisher: message` to every subscriber, in list order,
        and evicts in place each subscriber whose delivery fails.
        `delivered[k]` is the outcome of the k-th remote `receiveMsg` call:
        true when it returned, false when it raised a remote failure.
        Returns the remote calls made; no failure reaches the caller. */
    method Publish(message: string, publisher: string, delivered: seq<bool>) returns (attempts: seq<Delivery>)
      requires |delivered| == |registeredClients|
      modifies this
      ensures attempts == Broadcast(old(registeredClients), roomName, FormatMessage(publisher, message))
      ensures registeredClients == Survivors(old(registeredClients), delivered)
    {
      ghost var original := registeredClients;
      var text := FormatMessage(publisher, message);
      attempts := [];
      var cursor := 0;  // the iterator's position in registeredClients
      var k := 0;       // the number of delivery attempts made so far
      while cursor < |registeredClients|
        invariant 0 <= k <= |original|
        invariant cursor == |Survivors(original[..k], delivered[..k])|
        invariant registeredClients == Survivors(original[..k], delivered[..k]) + original[k..]
        invariant attempts == Broadcast(original[..k], roomName, text)
        decreases |registeredClients| - cursor
      {
        var client := registeredClients[cursor];
        IteratorStep(original, delivered, k);
        BroadcastStep(original, roomName, text, k);
        attempts := attempts + [Delivery(client, roomName, text)];
        if delivered[k] {
          cursor := cursor + 1;
        } else {
          registeredClients := registeredClients[..cursor] + registeredClients[cursor + 1..];
        }
        k := k + 1;
      }
      assert original[..k] == original;
      assert delivered[..k] == delivered;
    }

    /** Subscribes `client` by appending it, with no duplicate check. */
    method Register(client: ClientHandle)
      modifies this
      ensures registeredClients == old(registeredClients) + [client]
    {
      registeredClients := registeredClients + [client];
    }

    /** Unsubscribes the first entry equal to `client`; a no-op when it is
        not subscribed. */
    method Unregister(client: ClientHandle)
      modifies this
      ensures registeredClients == RemoveFirst(old(registeredClients), client)
    {
      registeredClients := RemoveFirst(registeredClients, client);
    }
  }
}

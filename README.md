# Chat room server: room broadcast engine and room directory

A Dafny model of the server side of a Java RMI chat service.

- `Room` (room.dfy) models `ChatServer`, the server of one chat room. It keeps
  the room's name and its ordered subscriber list. `Register` appends a client
  handle. `Unregister` removes the first equal entry. `Publish` walks the list
  in order and sends every subscriber the room name and the text
  `publisher + ": " + message`. It removes in place each subscriber whose
  delivery raises a remote failure, and carries on with the rest.
- `Directory` (directory.dfy) models `ChatServerManager`. It holds two parallel
  lists: the room names and the room servers. It starts with the single room
  `"sports"`. It answers the list of names, and its room creation is an
  unimplemented stub that always answers `false`. `ManagerSingleton` holds
  the lazily created process-wide instance.

The remote `receiveMsg` call is an oracle. `Publish` takes `delivered`, one
outcome per delivery attempt, in attempt order (`true`: the call returned;
`false`: it raised `RemoteException`). It returns the remote calls it made as a
sequence of `Delivery(client, room, text)` values. Two independent definitions
specify a broadcast. `Broadcast` gives the calls attempted, and `Survivors`
gives the list that remains. The lemmas beside them state what the broadcast
promises: each entry is attempted exactly once and in order, the survivors are
exactly the successful entries in their original order, the list shrinks by
exactly the number of failures, and a client whose every entry failed is not
addressed by the next broadcast (unless it registers again in between).

In three places the code does less than a reader might expect, and the model follows the code:
- `register` has no duplicate check. Registering a client twice gives two entries.
- `createRoom` creates nothing and always returns `false`. There is no
  uniqueness check, because the code has none.
- The publisher is not excluded from its own broadcast. Every entry is
  attempted, including the publisher's own.

## Model

| member | source | states |
|---|---|---|
| `Room.ChatServer.constructor` | src/os/chat/server/ChatServer.java:34-37 | a new room has the given name and no subscribers |
| `Room.ChatServer.Register` | src/os/chat/server/ChatServer.java:94-99 | the client is appended at the end; existing entries and their order are unchanged; no duplicate check |
| `Room.ChatServer.Unregister` | src/os/chat/server/ChatServer.java:107-111 | the list becomes `RemoveFirst` of the old list: only the first equal entry goes |
| `Room.IndexOf` | src/os/chat/server/ChatServer.java:109 | the position of the first entry equal to the client, or -1 exactly when it is absent |
| `Room.RemoveFirst` | src/os/chat/server/ChatServer.java:109 | absent client: list unchanged; present: the list minus the first equal entry, others in order; the multiset loses exactly one copy |
| `Room.ChatServer.Publish` | src/os/chat/server/ChatServer.java:64-86 | the calls made are exactly `Broadcast` of the old list with the formatted text; the new list is exactly `Survivors` of the old list and the outcomes; no `RemoteException` reaches the caller (see Left out for other exceptions) |
| `Room.FormatMessage` | src/os/chat/server/ChatServer.java:76 | the delivered text is the publisher's name, then ": ", then the message, and cutting it at the publisher's length gives back the publisher and the message |
| `Room.Broadcast` | src/os/chat/server/ChatServer.java:71-77 | one attempt per entry, the i-th attempt goes to the i-th entry with the room name and the text |
| `Room.BroadcastRecipients` | src/os/chat/server/ChatServer.java:71-76 | the recipients of a broadcast, in order, are exactly the subscriber list: every entry, the publisher's included, is attempted exactly once, in order |
| `Room.SurvivorsLength` | src/os/chat/server/ChatServer.java:68-85 | the size after a broadcast is the size before minus the number of failed attempts; it never grows |
| `Room.SurvivorsMembership` | src/os/chat/server/ChatServer.java:79-82 | a client remains subscribed if and only if one of its entries was delivered to |
| `Room.EvictedNotAttemptedAgain` | src/os/chat/server/ChatServer.java:79-82 | a client whose entries all failed is addressed by no delivery of the next broadcast |
| `Room.SuccessIndicesSpec` | src/os/chat/server/ChatServer.java:72-84 | the successful positions are in range, strictly increasing, and include every position whose delivery succeeded |
| `Room.SurvivorsAt` | src/os/chat/server/ChatServer.java:72-84 | the k-th survivor is the entry at the k-th successful position: the survivors are the list filtered to its successful entries, order preserved |
| `Room.SurvivorsAllDelivered` | src/os/chat/server/ChatServer.java:72-84 | when every delivery succeeds (and so for an empty list) the list is unchanged |
| `Room.IteratorStep` | src/os/chat/server/ChatServer.java:73-81 | the iterator stands on the next unprocessed original entry; stepping past it or removing it leaves the list for one more processed entry |
| `Directory.ChatServerManager.constructor` | src/os/chat/server/ChatServerManager.java:42-51 | the name list is exactly `["sports"]`, and there is exactly one fresh room, named "sports", with no subscribers; the invariant holds |
| `Directory.ChatServerManager.GetRoomsList` | src/os/chat/server/ChatServerManager.java:95-98 | returns the current name list, whose i-th name is the i-th room's name; nothing changes |
| `Directory.ChatServerManager.CreateRoom` | src/os/chat/server/ChatServerManager.java:107-117 | always `false`, whatever the name; nothing changes |
| `Directory.ManagerSingleton.constructor` | src/os/chat/server/ChatServerManager.java:34 | before the first request there is no instance, and the holder's invariant holds |
| `Directory.ManagerSingleton.GetInstance` | src/os/chat/server/ChatServerManager.java:81-87 | a manager is created only when none exists, as a fresh directory holding one fresh, empty "sports" room; every call returns the stored instance, which always satisfies the directory invariant, and later calls leave it untouched |

The invariant of src/os/chat/server/ChatServerManager.java:24-29 (equal lengths,
and `chatRoomsList[i]` is the name of `chatRooms[i]`) is
`Directory.ChatServerManager.Valid`. The constructor establishes it. No
operation changes the lists, so it holds throughout. `ManagerSingleton.Valid`
carries it for the singleton: the stored instance, once set, is always a valid
directory, and `GetInstance` returns a valid one on every call. A room's name is a `const`
because the Java field is never reassigned after construction.

## Left out

- RMI plumbing: exporting objects, locating or creating the registry, and
  binding `"room_" + roomName` and `"ChatServerManager"`. These are calls into
  the RMI library. The failure path of the constructors' binding only logs, so
  it does not change the modelled state.
- The `registry` field of `ChatServerManager` is set only by that plumbing, so
  it is not modelled.
- The remote `receiveMsg` call is the `delivered` oracle. The client-side
  effect of a delivery is not modelled.
- `ChatClient` is not part of this model. Its methods are thin wrappers over
  RMI lookups and remote calls, or empty TODO stubs (`sendText`,
  `createNewRoom`, `receiveMsg`). There is no client-side send buffer or reconnect logic in the code.
- Concurrency: the `Vector` synchronisation and concurrent register/publish
  interleavings. Every operation is modelled as sequential.
- Room.ChatServer.Publish: handles and string arguments (`roomName`,
  `message`, `publisher`) are never null; Java would format a null string as
  "null" in the text and pass a null room name. Every `receiveMsg`
  call either returns or raises `RemoteException`. In Java only
  `RemoteException` is absorbed. A null entry (a client whose own export
  failed registers a null callback) or an unchecked exception from
  `receiveMsg` escapes `publish`. Then the later subscribers are not
  attempted and the offending entry stays in the list. The model does not
  capture that aborted broadcast.
- Logging to `System.out` / `System.err`, `printStackTrace`, and the `main`
  methods.
- Directory.ChatServerManager.GetRoomsList: returns the list as a value. The
  Java method returns the `Vector` object itself, so a caller could alias and
  mutate the directory's list. That aliasing is not modelled.
- Directory.ManagerSingleton: the Java `static` field `instance` is a field of
  one holder object, because Dafny classes have no mutable static fields.
- Client handles are `ClientHandle` values compared by equality. This stands
  for Java `equals` on RMI stubs, which `Vector.remove(Object)` uses.

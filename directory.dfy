/** The room directory (ChatServerManager): the names of the available rooms
    and the room servers themselves, kept in two parallel lists, and the
    process-wide singleton that holds it. */
module Directory {
  import opened Room

  /** The name of the one room every directory starts with. */
  const InitialRoom: string := "sports"

  class ChatServerManager {
    /** The room names; redundant with the rooms' own names. */
    var chatRoomsList: seq<string>
    var chatRooms: seq<ChatServer>

    /** The two lists have the same length, and each name in the name list
        is the name of the room server at the same position. */
    ghost predicate Valid()
      reads this
    {
      |chatRoomsList| == |chatRooms| &&
      forall i :: 0 <= i < |chatRooms| ==> chatRoomsList[i] == chatRooms[i].roomName
    }

    /** A new directory holds the single, freshly created room "sports",
        which has no subscribers. */
    constructor ()
      ensures Valid()
      ensures chatRoomsList == [InitialRoom]
      ensures |chatRooms| == 1 && fresh(chatRooms[0])
      ensures chatRooms[0].roomName == InitialRoom && chatRooms[0].registeredClients == []
    {
      var sports := new ChatServer(InitialRoom);
      chatRooms := [sports];
      chatRoomsList := [InitialRoom];
    }

    /** The current room names, which are the names of the rooms held,
        in order; nothing changes. */
    method GetRoomsList() returns (names: seq<string>)
      requires Valid()
      ensures names == chatRoomsList
      ensures |names| == |chatRooms|
      ensures forall i :: 0 <= i < |names| ==> names[i] == chatRooms[i].roomName
    {
      names := chatRoomsList;
    }

    /** Room creation is not implemented: the answer is always `false`,
        whatever the name, and neither list changes. */
    method CreateRoom(roomName: string) returns (created: bool)
      ensures !created
    {
      created := false;
    }
  }

  /** The static part of ChatServerManager: the lazily created instance. */
  class ManagerSingleton {
    var instance: ChatServerManager?

    /** Once created, the instance is a fully constructed directory. */
    ghost predicate Valid()
      reads this, instance
    {
      instance != null ==> instance.Valid()
    }

    /** Before the first request there is no instance. */
    constructor ()
      ensures Valid()
      ensures instance == null
    {
      instance := null;
    }

    /** Creates the directory on the first request only; every request
        returns the one instance, which a later request leaves untouched. */
    method GetInstance() returns (manager: ChatServerManager)
      requires Valid()
      modifies this
      ensures Valid()
      ensures instance == manager && manager.Valid()
      ensures old(instance) != null ==> manager == old(instance) && unchanged(manager)
      ensures old(instance) == null ==>
                fresh(manager) && manager.chatRoomsList == [InitialRoom] &&
                |manager.chatRooms| == 1 && fresh(manager.chatRooms[0]) &&
                manager.chatRooms[0].roomName == InitialRoom &&
                manager.chatRooms[0].registeredClients == []
    {
      if instance == null {
        instance := new ChatServerManager();
      }
      manager := instance;
    }
  }
}

/** The web server in the source's own form: session objects with an id that the server sets, and a
    map from keys to sessions that connects, log-ins and disconnects rearrange. */
module WebServer {
  import opened WebClients

  class Session {
    ghost const number: nat  // the place in the order of connection
    var id: int

    constructor (ghost number: nat)
      ensures this.number == number && id == -1
    {
      this.number := number;
      id := -1;
    }
  }

  class WssServer {
    const interface: Interface
    const adminPassword: string
    const userPassword: string
    var clientMap: seq<(int, Session)>
    var currId: int
    ghost var sessions: seq<Session>  // every session that ever connected
    ghost var gone: set<nat>
    ghost var issued: seq<int>
    ghost var log: seq<Output>
    ghost var entries: seq<Entry>     // the client map with sessions named by their numbers
    ghost var ids: seq<int>           // the ids of all sessions

    ghost predicate Shaped()
      reads this, sessions
    {
      IdsShaped() && MapShaped()
    }

    ghost predicate IdsShaped()
      reads this`sessions, this`ids, sessions`id
    {
      |ids| == |sessions| && forall i :: 0 <= i < |ids| ==> sessions[i].number == i && ids[i] == sessions[i].id
    }

    ghost predicate MapShaped()
      reads this`sessions, this`entries, this`clientMap
    {
      |entries| == |clientMap| && forall i :: 0 <= i < |entries| ==>
        && entries[i] == Entry(clientMap[i].0, clientMap[i].1.number)
        && entries[i].client < |sessions| && sessions[entries[i].client] == clientMap[i].1
    }

    ghost function Model(): Server
      reads this
    {
      Server(interface, adminPassword, userPassword, entries, ids, gone, currId, issued)
    }

    ghost predicate Valid()
      reads this, sessions
    {
      Shaped() && WebClients.Valid(Model())
    }

    /** A session that connected to this server and is still there. */
    ghost predicate Serves(client: Session)
      reads this
    {
      client.number < |sessions| && sessions[client.number] == client && client.number !in gone
    }

    constructor (interface: Interface, adminPassword: string, userPassword: string)
      ensures Valid() && Model() == Initial(interface, adminPassword, userPassword) && log == []
    {
      this.interface := interface;
      this.adminPassword := adminPassword;
      this.userPassword := userPassword;
      clientMap := [];
      currId := 1;
      sessions, gone, issued, log := [], {}, [], [];
      entries, ids := [], [];
    }

    // ----- The multimap -----

    /** The first entry with the key, or the end. */
    method Find(key: int) returns (i: nat)
      requires MapShaped()
      ensures i == FindKey(entries, key) && |entries| == |clientMap|
    {
      i := 0;
      while i < |clientMap| && clientMap[i].0 != key
        invariant 0 <= i <= |clientMap|
        invariant forall j :: 0 <= j < i ==> entries[j].key != key
      {
        i := i + 1;
      }
    }

    method Erase(i: nat)
      requires MapShaped() && i < |clientMap|
      modifies this`clientMap, this`entries
      ensures MapShaped() && entries == EraseAt(old(entries), i)
    {
      clientMap := clientMap[..i] + clientMap[i + 1..];
      entries := entries[..i] + entries[i + 1..];
    }

    method EraseFirst(key: int)
      requires MapShaped()
      modifies this`clientMap, this`entries
      ensures MapShaped() && entries == EraseAt(old(entries), FindKey(old(entries), key))
    {
      var it := Find(key);
      if it < |clientMap| {
        Erase(it);
      }
    }

    /** Inserts behind all entries whose key is not greater. */
    method Emplace(key: int, client: Session)
      requires MapShaped() && client.number < |sessions| && sessions[client.number] == client
      requires SortedKeys(entries)
      modifies this`clientMap, this`entries
      ensures MapShaped() && entries == Insert(old(entries), Entry(key, client.number))
    {
      var k := 0;
      while k < |clientMap| && clientMap[k].0 <= key
        invariant 0 <= k <= |clientMap|
        invariant forall j :: 0 <= j < k ==> entries[j].key <= key
      {
        k := k + 1;
      }
      assert k == UpperBound(entries, key);
      clientMap := clientMap[..k] + [(key, client)] + clientMap[k..];
      entries := entries[..k] + [Entry(key, client.number)] + entries[k..];
    }

    /** Searches for the session and moves its entry under the new key. */
    method ChangeClientKey(client: Session, newKey: int)
      requires MapShaped() && client.number < |sessions| && sessions[client.number] == client
      requires SortedKeys(entries)
      modifies this`clientMap, this`entries
      ensures MapShaped() && entries == Rekey(old(entries), client.number, newKey)
    {
      var i := 0;
      while i < |clientMap| && clientMap[i].1 != client
        invariant 0 <= i <= FindClient(entries, client.number)
      {
        i := i + 1;
      }
      assert i == FindClient(entries, client.number);
      if i == |clientMap| {
        return;
      }
      EraseKeepsOrder(entries, i);
      Erase(i);
      if newKey >= 0 {
        Emplace(newKey, client);
      }
    }

    /** Looks for the session among the entries with key -1. */
    method IsUnauthorized(client: Session) returns (found: bool)
      requires MapShaped() && Serves(client) && SortedKeys(entries)
      ensures found <==> Entry(-1, client.number) in entries
    {
      var i := Find(-1);
      ghost var first := i;
      found := false;
      while i < |clientMap| && clientMap[i].0 == -1
        invariant first <= i <= |clientMap|
        invariant forall j :: 0 <= j < i ==> entries[j] != Entry(-1, client.number)
      {
        if clientMap[i].1 == client {
          assert entries[i] == Entry(-1, client.number);
          found := true;
          return;
        }
        i := i + 1;
      }
      if first < i < |entries| {
        assert entries[first].key == -1 < entries[i].key;
      }
    }

    // ----- Callbacks -----

    method OnConnect(client: Session)
      requires Valid() && client.number == |sessions| && client !in sessions && client.id == -1
      modifies this
      ensures Valid() && sessions == old(sessions) + [client] && log == old(log)
      ensures Model() == Step(old(Model()), Connect).next
    {
      hide Insert, SortedKeys, KeysAreIds, EntriesDistinct, IdsNeverReused, AuthorizedRegistered;
      StepKeeps(Model(), Connect);
      assert SortedKeys(entries);
      hide WebClients.Valid;
      sessions := sessions + [client];
      ids := ids + [-1];
      Emplace(-1, client);
    }

    method OnDisconnect(client: Session)
      requires Valid() && Serves(client)
      modifies this
      ensures Valid() && sessions == old(sessions) && log == old(log)
      ensures Model() == Step(old(Model()), Disconnect(client.number)).next
    {
      hide WebClients.Valid, EraseAt, FindKey, MapShaped, Authorize;
      StepKeeps(Model(), Disconnect(client.number));
      assert client.id == ids[client.number];
      hide IdsShaped;
      EraseFirst(client.id);
      gone := gone + {client.number};
    }

    method OnReceive(client: Session, message: Message)
      requires Valid() && Serves(client)
      modifies this, client
      ensures Valid() && sessions == old(sessions)
      ensures var r := Step(old(Model()), Receive(client.number, message));
              Model() == r.next && log == old(log) + r.out
    {
      StepKeeps(Model(), Receive(client.number, message));
      assert SortedKeys(entries) && EntriesDistinct(entries) && currId >= 0;
      hide WebClients.Valid, Authorize;
      match message
      case Unreadable =>
        log := log + [ErrorReply(client.number, 3)];
      case WithoutCommand =>
        log := log + [Raised(client.number)];
      case Auth(password) =>
        Authenticate(client, password);
      case Request(command) =>
        if client.id < 0 {
          return;
        }
        CommandDecoder(client, command);
    }

    method Authenticate(client: Session, password: string)
      requires Shaped() && Serves(client) && SortedKeys(entries) && EntriesDistinct(entries) && currId >= 0
      modifies this, client
      ensures Shaped() && sessions == old(sessions)
      ensures var r := Authorize(old(Model()), client.number, password);
              Model() == r.next && log == old(log) + r.out
    {
      hide Grant, MapShaped, IdsShaped, GrantUser, SortedKeys, EntriesDistinct;
      var unauthorized := IsUnauthorized(client);
      if !unauthorized {
        return;
      }
      if password == adminPassword {
        if interface == FromTelegram {
          AuthorizeUser(client);
        } else {
          var control := Find(0);
          if control == |clientMap| {
            SetId(client, 0);
            log := log + [AuthReply(client.number, 0)];
          } else {
            log := log + [AuthReply(client.number, -1)];
          }
        }
      } else if password == userPassword {
        AuthorizeUser(client);
      } else {
        log := log + [AuthReply(client.number, -1)];
      }
    }

    method AuthorizeUser(client: Session)
      requires Shaped() && Serves(client) && Entry(-1, client.number) in entries
      requires SortedKeys(entries) && EntriesDistinct(entries) && currId >= 0
      modifies this, client
      ensures Shaped() && sessions == old(sessions)
      ensures var r := GrantUser(old(Model()), client.number); Model() == r.next && log == old(log) + r.out
    {
      hide Grant, MapShaped, IdsShaped, SortedKeys, EntriesDistinct;
      currId := currId + 1;
      issued := issued + [currId];
      SetId(client, currId);
      log := log + [AuthReply(client.number, currId)];
    }

    method SetId(client: Session, id: int)
      requires Shaped() && Serves(client) && id >= 0
      requires SortedKeys(entries) && EntriesDistinct(entries) && Entry(-1, client.number) in entries
      modifies this`clientMap, this`entries, this`ids, client`id
      ensures Shaped() && Model() == Grant(old(Model()), client.number, id)
    {
      UpdateId(client, id);
      hide MapShaped, IdsShaped, SortedKeys, EntriesDistinct, Rekey;
      ChangeClientKey(client, id);
    }

    method UpdateId(client: Session, id: int)
      requires IdsShaped() && Serves(client)
      modifies this`ids, client`id
      ensures IdsShaped() && ids == old(ids)[client.number := id]
    {
      client.id := id;
      ids := ids[client.number := id];
    }

    method CommandDecoder(client: Session, command: Command)
      requires Serves(client)
      modifies this`log
      ensures log == old(log) + Decode(client.id, client.number, command)
    {
      match command
      case RunTrade =>
        if 0 != client.id {
          log := log + [ErrorReply(client.number, 2)];
        } else {
          log := log + [TradeRunEvent(client.number)];
        }
      case DeleteOrder(named) =>
        if 0 != client.id {
          log := log + [ErrorReply(client.number, 2)];
          return;
        }
        if !named {
          return;
        }
        log := log + [OrderDeleteEvent(client.number)];
      case TradeData(action) =>
        if 0 != client.id {
          if action.None? {
            log := log + [Raised(client.number)];
            return;
          }
          if "get" != action.value {
            log := log + [ErrorReply(client.number, 1)];
            return;
          }
        }
        log := log + [TradeDataEvent(client.number, action)];
      case Query(lookup) =>
        if lookup.Answerable? {
          log := log + [QueryEvent(client.number)];
        } else if lookup.KeyMissing? {
          log := log + [Raised(client.number)];
        }
      case SymbolsList =>
        log := log + [SymbolsReply(client.number)];
      case Unknown =>
        log := log + [ErrorReply(client.number, 3)];
    }
  }
}

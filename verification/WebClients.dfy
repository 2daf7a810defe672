/** The web server's client map: who is registered under which key, and which commands get through.
    A session is named by its number in the order of connection. The map is a multimap: entries stand
    in key order, equal keys in order of insertion, and a lookup finds the first of them. */
module WebClients {
  import opened Wrappers

  datatype Interface = FromTelegram | FromWeb

  datatype Entry = Entry(key: int, client: nat)

  /** `ids` holds the id of every session that ever connected, `issued` the user ids in the order in
      which they were given out. */
  datatype Server = Server(interface: Interface, adminPassword: string, userPassword: string,
                           clients: seq<Entry>, ids: seq<int>, gone: set<nat>, currId: int, issued: seq<int>)

  /** Whether a query finds what it asks for. */
  datatype Lookup = Answerable | KeyMissing | NothingAsked

  datatype Command =
    | RunTrade
    | DeleteOrder(named: bool)           // is the order's name present?
    | TradeData(action: Option<string>)
    | Query(lookup: Lookup)
    | SymbolsList
    | Unknown

  datatype Message =
    | Unreadable                         // no JSON
    | WithoutCommand                     // reading the command raises an exception
    | Auth(password: string)
    | Request(command: Command)

  datatype Event =
    | Connect
    | Disconnect(client: nat)
    | Receive(client: nat, message: Message)

  datatype Output =
    | TradeRunEvent(client: nat)
    | OrderDeleteEvent(client: nat)
    | TradeDataEvent(client: nat, action: Option<string>)
    | QueryEvent(client: nat)
    | SymbolsReply(client: nat)
    | ErrorReply(client: nat, code: int)
    | Raised(client: nat)                   // an exception leaves the callback
    | AuthReply(client: nat, granted: int)  // the id the session has now, -1 if refused
  {
    /** The events that only the controlling client may cause. */
    predicate Privileged() {
      TradeRunEvent? || OrderDeleteEvent? || (TradeDataEvent? && action != Some("get"))
    }
  }

  datatype Result = Result(next: Server, out: seq<Output>)

  function Initial(interface: Interface, adminPassword: string, userPassword: string): Server {
    Server(interface, adminPassword, userPassword, [], [], {}, 1, [])
  }

  // ----- The multimap -----

  /** The place behind the last key that is not greater than `key`. */
  function UpperBound(m: seq<Entry>, key: int): (k: nat)
    ensures k <= |m|
    ensures forall i :: 0 <= i < k ==> m[i].key <= key
    ensures k < |m| ==> m[k].key > key
  {
    if m == [] || m[0].key > key then 0 else 1 + UpperBound(m[1..], key)
  }

  /** The first place with the key, or the length when there is none. */
  function FindKey(m: seq<Entry>, key: int): (k: nat)
    ensures k <= |m|
    ensures k < |m| ==> m[k].key == key
    ensures forall i :: 0 <= i < k ==> m[i].key != key
  {
    if m == [] || m[0].key == key then 0 else 1 + FindKey(m[1..], key)
  }

  function FindClient(m: seq<Entry>, client: nat): (k: nat)
    ensures k <= |m|
    ensures k < |m| ==> m[k].client == client
    ensures forall i :: 0 <= i < k ==> m[i].client != client
  {
    if m == [] || m[0].client == client then 0 else 1 + FindClient(m[1..], client)
  }

  function Insert(m: seq<Entry>, e: Entry): seq<Entry> {
    var k := UpperBound(m, e.key);
    m[..k] + [e] + m[k..]
  }

  function EraseAt(m: seq<Entry>, i: nat): seq<Entry> {
    if i < |m| then m[..i] + m[i + 1..] else m
  }

  /** Moves the session's entry under a new key; under a negative one it is just removed. */
  function Rekey(m: seq<Entry>, client: nat, key: int): seq<Entry> {
    var i := FindClient(m, client);
    if i == |m| then m
    else if key >= 0 then Insert(EraseAt(m, i), Entry(key, client))
    else EraseAt(m, i)
  }

  predicate HasKey(m: seq<Entry>, key: int) {
    FindKey(m, key) < |m|
  }

  predicate Registered(m: seq<Entry>, client: nat) {
    FindClient(m, client) < |m|
  }

  // ----- Steps -----

  predicate Live(s: Server, client: nat) {
    client < |s.ids| && client !in s.gone
  }

  /** Gives the session its id and moves its entry under that key. */
  function Grant(s: Server, client: nat, id: int): Server
    requires client < |s.ids|
  {
    s.(ids := s.ids[client := id], clients := Rekey(s.clients, client, id))
  }

  function GrantUser(s: Server, client: nat): Result
    requires client < |s.ids|
  {
    var id := s.currId + 1;
    Result(Grant(s.(currId := id, issued := s.issued + [id]), client, id), [AuthReply(client, id)])
  }

  function Authorize(s: Server, client: nat, password: string): Result
    requires client < |s.ids|
  {
    if Entry(-1, client) !in s.clients then Result(s, [])
    else if password == s.adminPassword then
      if s.interface.FromTelegram? then GrantUser(s, client)
      else if HasKey(s.clients, 0) then Result(s, [AuthReply(client, -1)])
      else Result(Grant(s, client, 0), [AuthReply(client, 0)])
    else if password == s.userPassword then GrantUser(s, client)
    else Result(s, [AuthReply(client, -1)])
  }

  function Decode(id: int, client: nat, command: Command): seq<Output> {
    match command
    case RunTrade => if id != 0 then [ErrorReply(client, 2)] else [TradeRunEvent(client)]
    case DeleteOrder(named) =>
      if id != 0 then [ErrorReply(client, 2)] else if named then [OrderDeleteEvent(client)] else []
    case TradeData(action) =>
      if id == 0 then [TradeDataEvent(client, action)]
      else if action.None? then [Raised(client)]
      else if action.value != "get" then [ErrorReply(client, 1)]
      else [TradeDataEvent(client, action)]
    case Query(lookup) =>
      if lookup.Answerable? then [QueryEvent(client)] else if lookup.KeyMissing? then [Raised(client)] else []
    case SymbolsList => [SymbolsReply(client)]
    case Unknown => [ErrorReply(client, 3)]
  }

  /** One step. A session disconnects once and sends nothing afterwards. */
  function Step(s: Server, e: Event): Result {
    match e
    case Connect => Result(s.(ids := s.ids + [-1], clients := Insert(s.clients, Entry(-1, |s.ids|))), [])
    case Disconnect(client) =>
      if !Live(s, client) then Result(s, [])
      else Result(s.(clients := EraseAt(s.clients, FindKey(s.clients, s.ids[client])), gone := s.gone + {client}), [])
    case Receive(client, message) =>
      if !Live(s, client) then Result(s, [])
      else match message
        case Unreadable => Result(s, [ErrorReply(client, 3)])
        case WithoutCommand => Result(s, [Raised(client)])
        case Auth(password) => Authorize(s, client, password)
        case Request(command) =>
          if s.ids[client] < 0 then Result(s, []) else Result(s, Decode(s.ids[client], client, command))
  }

  function Run(s: Server, es: seq<Event>): Server
    decreases |es|
  {
    if es == [] then s else Run(Step(s, es[0]).next, es[1..])
  }

  // ----- What every step keeps -----

  ghost predicate SortedKeys(m: seq<Entry>) {
    forall i, j :: 0 <= i < j < |m| ==> m[i].key <= m[j].key
  }

  /** Every entry's key is its session's id. */
  ghost predicate KeysAreIds(m: seq<Entry>, ids: seq<int>) {
    forall e <- m :: e.client < |ids| && e.key == ids[e.client]
  }

  /** No session appears twice, and no key but -1 does. */
  predicate EntriesDistinct(m: seq<Entry>) {
    forall i, j :: 0 <= i < j < |m| ==> m[i].client != m[j].client && (m[i].key >= 0 ==> m[i].key != m[j].key)
  }

  /** User ids grow strictly from 2 on, and no two sessions ever share one. */
  predicate IdsNeverReused(s: Server) {
    && (forall k :: 0 <= k < |s.issued| ==> s.issued[k] == k + 2)
    && s.currId == |s.issued| + 1
    && (forall c :: 0 <= c < |s.ids| ==> s.ids[c] == -1 || s.ids[c] == 0 || 2 <= s.ids[c] <= s.currId)
    && (forall c, d :: 0 <= c < d < |s.ids| && s.ids[c] > 0 ==> s.ids[c] != s.ids[d])
  }

  /** A session that has an id and is still connected stands in the map under it. */
  predicate AuthorizedRegistered(s: Server) {
    forall c :: 0 <= c < |s.ids| && c !in s.gone && s.ids[c] >= 0 ==> Entry(s.ids[c], c) in s.clients
  }

  ghost predicate Valid(s: Server) {
    && SortedKeys(s.clients) && KeysAreIds(s.clients, s.ids) && EntriesDistinct(s.clients)
    && IdsNeverReused(s) && AuthorizedRegistered(s)
    && (s.interface.FromTelegram? ==> forall c :: 0 <= c < |s.ids| ==> s.ids[c] != 0)
  }

  // ----- The map under each operation -----

  lemma EraseKeepsOrder(m: seq<Entry>, i: nat)
    requires SortedKeys(m)
    ensures SortedKeys(EraseAt(m, i))
  {
    var r := EraseAt(m, i);
    assert forall j :: 0 <= j < |r| ==> r[j] == m[if j < i then j else j + 1];
  }

  lemma EraseKeeps(m: seq<Entry>, i: nat)
    requires SortedKeys(m) && EntriesDistinct(m)
    ensures SortedKeys(EraseAt(m, i)) && EntriesDistinct(EraseAt(m, i))
  {
    EraseKeepsOrder(m, i);
    var r := EraseAt(m, i);
    assert forall j :: 0 <= j < |r| ==> r[j] == m[if j < i then j else j + 1];
  }

  lemma EraseMembers(m: seq<Entry>, i: nat)
    requires EntriesDistinct(m) && i < |m|
    ensures forall e :: e in EraseAt(m, i) <==> e in m && e.client != m[i].client
  {
    var r := EraseAt(m, i);
    assert forall j :: 0 <= j < |r| ==> r[j] == m[if j < i then j else j + 1];
    forall e | e in m && e.client != m[i].client ensures e in r {
      var j :| 0 <= j < |m| && m[j] == e;
      assert r[if j < i then j else j - 1] == e;
    }
  }

  lemma InsertAt(m: seq<Entry>, e: Entry)
    ensures var k, r := UpperBound(m, e.key), Insert(m, e);
            |r| == |m| + 1 &&
            forall j :: 0 <= j < |r| ==> r[j] == if j < k then m[j] else if j == k then e else m[j - 1]
  {
  }

  lemma InsertSorted(m: seq<Entry>, e: Entry)
    requires SortedKeys(m)
    ensures SortedKeys(Insert(m, e))
  {
    InsertAt(m, e);
    var r := Insert(m, e);
  }

  lemma InsertDistinct(m: seq<Entry>, e: Entry)
    requires EntriesDistinct(m)
    requires forall i :: 0 <= i < |m| ==> m[i].client != e.client && (e.key >= 0 ==> m[i].key != e.key)
    ensures EntriesDistinct(Insert(m, e))
  {
    InsertAt(m, e);
    var r := Insert(m, e);
  }

  lemma InsertMembers(m: seq<Entry>, e: Entry)
    ensures forall x :: x in Insert(m, e) <==> x == e || x in m
  {
    var k := UpperBound(m, e.key);
    var r := Insert(m, e);
    assert forall j :: 0 <= j < |r| ==> r[j] == if j < k then m[j] else if j == k then e else m[j - 1];
    forall x | x in m ensures x in r {
      var j :| 0 <= j < |m| && m[j] == x;
      assert r[if j < k then j else j + 1] == x;
    }
    assert r[k] == e;
  }

  lemma PlaceOf(m: seq<Entry>, e: Entry) returns (i: nat)
    requires EntriesDistinct(m) && e in m
    ensures i < |m| && m[i] == e && i == FindClient(m, e.client) && (e.key >= 0 ==> i == FindKey(m, e.key))
  {
    i :| i < |m| && m[i] == e;
  }

  /** Moving a session without an id under a new key. */
  lemma RekeyKeeps(m: seq<Entry>, client: nat, id: int)
    requires SortedKeys(m) && EntriesDistinct(m) && Entry(-1, client) in m && id >= 0 && !HasKey(m, id)
    ensures var r := Rekey(m, client, id);
            SortedKeys(r) && EntriesDistinct(r) &&
            forall e :: e in r <==> e == Entry(id, client) || (e in m && e.client != client)
  {
    var i := PlaceOf(m, Entry(-1, client));
    EraseKeeps(m, i);
    EraseMembers(m, i);
    var shorter := EraseAt(m, i);
    forall k | 0 <= k < |shorter| ensures shorter[k].client != client && shorter[k].key != id {
      assert shorter[k] in shorter;
    }
    InsertSorted(shorter, Entry(id, client));
    InsertDistinct(shorter, Entry(id, client));
    InsertMembers(shorter, Entry(id, client));
  }

  lemma GrantKeeps(s: Server, client: nat, id: int)
    requires SortedKeys(s.clients) && KeysAreIds(s.clients, s.ids) && EntriesDistinct(s.clients)
    requires AuthorizedRegistered(s) && Entry(-1, client) in s.clients
    requires id >= 0 && !HasKey(s.clients, id)
    ensures client < |s.ids|
    ensures var t := Grant(s, client, id);
            SortedKeys(t.clients) && KeysAreIds(t.clients, t.ids) && EntriesDistinct(t.clients) &&
            AuthorizedRegistered(t)
  {
    RekeyKeeps(s.clients, client, id);
  }

  lemma KeyTaken(s: Server, key: int)
    requires KeysAreIds(s.clients, s.ids) && HasKey(s.clients, key)
    ensures exists c :: 0 <= c < |s.ids| && s.ids[c] == key
  {
    assert s.clients[FindKey(s.clients, key)] in s.clients;
  }

  lemma NextIdIsNew(s: Server, client: nat)
    requires IdsNeverReused(s) && client < |s.ids|
    ensures IdsNeverReused(GrantUser(s, client).next)
  {
    hide Insert, EraseAt, FindClient;
  }

  lemma NextIdIsFree(s: Server)
    requires IdsNeverReused(s) && KeysAreIds(s.clients, s.ids)
    ensures !HasKey(s.clients, s.currId + 1)
  {
    if HasKey(s.clients, s.currId + 1) { KeyTaken(s, s.currId + 1); }
  }

  lemma GrantUserKeeps(s: Server, client: nat)
    requires Valid(s) && Live(s, client) && Entry(-1, client) in s.clients
    ensures Valid(GrantUser(s, client).next)
  {
    var id := s.currId + 1;
    var t := s.(currId := id, issued := s.issued + [id]);
    assert AuthorizedRegistered(t) && id > 0;
    NextIdIsFree(s);
    NextIdIsNew(s, client);
    hide IdsNeverReused, SortedKeys, KeysAreIds, EntriesDistinct, HasKey, Insert, EraseAt, AuthorizedRegistered;
    GrantKeeps(t, client, id);
  }

  lemma GrantControlKeeps(s: Server, client: nat)
    requires Valid(s) && Live(s, client) && Entry(-1, client) in s.clients
    requires s.interface.FromWeb? && !HasKey(s.clients, 0)
    ensures Valid(Grant(s, client, 0))
  {
    GrantKeeps(s, client, 0);
  }

  lemma AuthorizeKeeps(s: Server, client: nat, password: string)
    requires Valid(s) && Live(s, client)
    ensures Valid(Authorize(s, client, password).next)
  {
    hide Valid, Grant, GrantUser;
    if Entry(-1, client) in s.clients {
      GrantUserKeeps(s, client);
      if s.interface.FromWeb? && !HasKey(s.clients, 0) {
        GrantControlKeeps(s, client);
      }
    }
  }

  lemma ConnectKeepsMap(s: Server)
    requires SortedKeys(s.clients) && KeysAreIds(s.clients, s.ids) && EntriesDistinct(s.clients)
    ensures var t := Step(s, Connect).next;
            SortedKeys(t.clients) && KeysAreIds(t.clients, t.ids) && EntriesDistinct(t.clients)
  {
    var e := Entry(-1, |s.ids|);
    assert forall i :: 0 <= i < |s.clients| ==> s.clients[i] in s.clients;
    hide Insert;
    InsertSorted(s.clients, e);
    InsertDistinct(s.clients, e);
    InsertMembers(s.clients, e);
  }

  lemma ConnectKeepsIds(s: Server)
    requires IdsNeverReused(s) && AuthorizedRegistered(s)
    ensures var t := Step(s, Connect).next;
            IdsNeverReused(t) && AuthorizedRegistered(t)
  {
    hide Insert;
    InsertMembers(s.clients, Entry(-1, |s.ids|));
  }

  lemma ConnectKeeps(s: Server)
    requires Valid(s)
    ensures Valid(Step(s, Connect).next)
  {
    ConnectKeepsMap(s);
    ConnectKeepsIds(s);
    hide Insert, SortedKeys, KeysAreIds, EntriesDistinct, IdsNeverReused, AuthorizedRegistered;
  }

  lemma DisconnectKeeps(s: Server, client: nat)
    requires Valid(s)
    ensures Valid(Step(s, Disconnect(client)).next)
  {
    if Live(s, client) {
      var k := FindKey(s.clients, s.ids[client]);
      EraseKeeps(s.clients, k);
      if k < |s.clients| {
        EraseMembers(s.clients, k);
        assert s.clients[k] in s.clients;
        if s.ids[client] >= 0 {
          var i := PlaceOf(s.clients, Entry(s.ids[client], client));
        }
      }
    }
  }

  lemma StepKeeps(s: Server, e: Event)
    requires Valid(s)
    ensures Valid(Step(s, e).next)
  {
    hide Valid;
    match e
    case Connect => ConnectKeeps(s);
    case Disconnect(client) => DisconnectKeeps(s, client);
    case Receive(client, message) =>
      if Live(s, client) && message.Auth? {
        AuthorizeKeeps(s, client, message.password);
      }
  }

  /** In every reachable state the map, the ids and the registrations agree. */
  lemma {:induction false} RunKeeps(s: Server, es: seq<Event>)
    requires Valid(s)
    ensures Valid(Run(s, es))
    decreases |es|
  {
    hide Valid;
    if es != [] {
      StepKeeps(s, es[0]);
      RunKeeps(Step(s, es[0]).next, es[1..]);
    }
  }

  /** A privileged event comes only from the session then registered under key 0, and never while
      Telegram controls the program. */
  lemma PrivilegeExactly(s: Server, client: nat, message: Message)
    requires Valid(s) && Live(s, client)
    ensures var out := Step(s, Receive(client, message)).out;
            (exists o <- out :: o.Privileged()) <==>
            Entry(0, client) in s.clients && s.interface.FromWeb? && message.Request? &&
            match message.command
            case RunTrade => true
            case DeleteOrder(named) => named
            case TradeData(action) => action != Some("get")
            case _ => false
  {
    var out := Step(s, Receive(client, message)).out;
    if s.ids[client] == 0 {
      assert Entry(0, client) in s.clients && s.interface.FromWeb?;
    } else {
      assert Entry(0, client) !in s.clients;
    }
    if out != [] {
      assert out[0] in out;
    }
  }

  // ----- Disconnects -----

  /** After a disconnect the session itself is not registered exactly when it has an id, was not
      registered before, or is the first of the sessions without an id. */
  lemma DisconnectRemovesOwnExactly(s: Server, client: nat)
    requires Valid(s) && Live(s, client)
    ensures !Registered(Step(s, Disconnect(client)).next.clients, client) <==>
            s.ids[client] >= 0 || !Registered(s.clients, client) || s.clients[0].client == client
  {
    var m := s.clients;
    var k := FindKey(m, s.ids[client]);
    if s.ids[client] >= 0 {
      var i := PlaceOf(m, Entry(s.ids[client], client));
      NotRegisteredAfter(m, i, client);
    } else if Registered(m, client) {
      var l := FindClient(m, client);
      assert m[l] in m && m[0] in m;
      assert k == 0;
      NotRegisteredAfter(m, 0, client);
    } else {
      if k < |m| {
        NotRegisteredAfter(m, k, client);
      }
    }
  }

  lemma RegisteredIsMember(m: seq<Entry>, client: nat)
    ensures Registered(m, client) <==> exists e <- m :: e.client == client
  {
    if e :| e in m && e.client == client {
      var i :| 0 <= i < |m| && m[i] == e;
      assert FindClient(m, client) <= i;
    }
    if Registered(m, client) {
      assert m[FindClient(m, client)] in m;
    }
  }

  lemma NotRegisteredAfter(m: seq<Entry>, i: nat, client: nat)
    requires EntriesDistinct(m) && i < |m|
    ensures Registered(EraseAt(m, i), client) <==> Registered(m, client) && m[i].client != client
  {
    RegisteredIsMember(m, client);
    RegisteredIsMember(EraseAt(m, i), client);
    EraseMembers(m, i);
    if Registered(m, client) && m[i].client != client {
      var e :| e in m && e.client == client;
      assert e in EraseAt(m, i);
    }
  }

  /** A disconnect leaves all other sessions registered exactly when the session has an id, or no
      session without an id is registered, or the session is itself the first of these. In all other
      cases it removes the entry of the first of them. */
  lemma DisconnectSparesOthersExactly(s: Server, client: nat)
    requires Valid(s) && Live(s, client)
    ensures (forall o: nat :: o != client && Registered(s.clients, o) ==>
               Registered(Step(s, Disconnect(client)).next.clients, o)) <==>
            s.ids[client] >= 0 || s.clients == [] || s.clients[0].key != -1 || s.clients[0].client == client
  {
    var m := s.clients;
    var k := FindKey(m, s.ids[client]);
    hide SortedKeys, IdsNeverReused, EraseAt, Registered;
    if s.ids[client] >= 0 {
      var i := PlaceOf(m, Entry(s.ids[client], client));
    } else if m != [] && m[0].key == -1 {
      assert k == 0;
      RegisteredIsMember(m, m[0].client);
      assert m[0] in m;
    } else {
      NoneWithoutId(m);
    }
    if k < |m| {
      forall o: nat ensures Registered(EraseAt(m, k), o) <==> Registered(m, o) && m[k].client != o {
        NotRegisteredAfter(m, k, o);
      }
    } else {
      assert EraseAt(m, k) == m;
    }
  }

  // Without an entry under -1 in front there is none at all.
  lemma NoneWithoutId(m: seq<Entry>)
    requires SortedKeys(m) && (forall e <- m :: e.key >= -1) && (m == [] || m[0].key != -1)
    ensures FindKey(m, -1) == |m|
  {
  }

  /** A session whose entry was removed by another one's disconnect can never log in: whatever it
      sends, the state stays as it is. */
  lemma LockedOut(s: Server, client: nat, message: Message)
    requires Valid(s) && Live(s, client) && !Registered(s.clients, client)
    ensures Step(s, Receive(client, message)).next == s
  {
    RegisteredIsMember(s.clients, client);
  }

  lemma UnregisteredAfterErase(m: seq<Entry>, i: nat, client: nat)
    requires !Registered(m, client)
    ensures !Registered(EraseAt(m, i), client)
  {
    RegisteredIsMember(m, client);
    RegisteredIsMember(EraseAt(m, i), client);
  }

  lemma UnregisteredAfterInsert(m: seq<Entry>, e: Entry, client: nat)
    requires !Registered(m, client) && e.client != client
    ensures !Registered(Insert(m, e), client)
  {
    hide Insert;
    RegisteredIsMember(m, client);
    RegisteredIsMember(Insert(m, e), client);
    InsertMembers(m, e);
  }

  lemma UnregisteredAfterGrant(s: Server, other: nat, id: int, client: nat)
    requires other < |s.ids| && other != client && client < |s.ids| && !Registered(s.clients, client)
    ensures var t := Grant(s, other, id); !Registered(t.clients, client) && t.ids[client] == s.ids[client]
  {
    hide Registered, Insert, EraseAt, FindClient;
    var i := FindClient(s.clients, other);
    UnregisteredAfterErase(s.clients, i, client);
    UnregisteredAfterInsert(EraseAt(s.clients, i), Entry(id, other), client);
  }

  lemma UnregisteredAfterAuthorize(s: Server, other: nat, password: string, client: nat)
    requires client < |s.ids| && other < |s.ids| && !Registered(s.clients, client)
    ensures var t := Authorize(s, other, password).next;
            |t.ids| == |s.ids| && !Registered(t.clients, client) && t.ids[client] == s.ids[client]
  {
    if Entry(-1, other) in s.clients {
      RegisteredIsMember(s.clients, client);
      assert other != client;
      hide Registered;
      var id := s.currId + 1;
      UnregisteredAfterGrant(s, other, 0, client);
      UnregisteredAfterGrant(s.(currId := id, issued := s.issued + [id]), other, id, client);
      hide Grant, HasKey;
    }
  }

  lemma UnregisteredStays(s: Server, client: nat, e: Event)
    requires client < |s.ids| && !Registered(s.clients, client)
    ensures var t := Step(s, e).next;
            client < |t.ids| && !Registered(t.clients, client) && t.ids[client] == s.ids[client]
  {
    hide Registered, Insert, EraseAt, FindKey, Authorize;
    match e
    case Connect => UnregisteredAfterInsert(s.clients, Entry(-1, |s.ids|), client);
    case Disconnect(other) =>
      if Live(s, other) { UnregisteredAfterErase(s.clients, FindKey(s.clients, s.ids[other]), client); }
    case Receive(other, message) =>
      if Live(s, other) && message.Auth? { UnregisteredAfterAuthorize(s, other, message.password, client); }
  }

  /** Such a session stays locked out for ever, whatever the others do. */
  lemma {:induction false} LockedOutForever(s: Server, client: nat, es: seq<Event>)
    requires client < |s.ids| && !Registered(s.clients, client)
    ensures var t := Run(s, es);
            client < |t.ids| && !Registered(t.clients, client) && t.ids[client] == s.ids[client]
    decreases |es|
  {
    hide Step, Registered;
    if es != [] {
      UnregisteredStays(s, client, es[0]);
      LockedOutForever(Step(s, es[0]).next, client, es[1..]);
    }
  }

  /** Two sessions connect and the second hangs up: the first one is locked out. */
  lemma HangUpLocksOutAnother(interface: Interface, admin: string, user: string)
    ensures var s := Run(Initial(interface, admin, user), [Connect, Connect, Disconnect(1)]);
            Live(s, 0) && !Registered(s.clients, 0)
  {
    var s0 := Initial(interface, admin, user);
    var s1 := Step(s0, Connect).next;
    assert s1.clients == [Entry(-1, 0)];
    var s2 := Step(s1, Connect).next;
    assert s2.clients == [Entry(-1, 0), Entry(-1, 1)] && s2.ids == [-1, -1];
    var s3 := Step(s2, Disconnect(1)).next;
    assert s3.clients == [Entry(-1, 1)];
    assert Run(s2, [Disconnect(1)]) == s3;
    assert [Connect, Disconnect(1)][1..] == [Disconnect(1)];
    assert Run(s1, [Connect, Disconnect(1)]) == s3;
    assert [Connect, Connect, Disconnect(1)][1..] == [Connect, Disconnect(1)];
  }
}

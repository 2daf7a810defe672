/** Who is logged in for which password, and what every message is answered with. */
module WebAccess {
  import opened Wrappers
  import opened WebClients

  /** A log-in grants an id exactly to a session that waits without one and sends the user's password, or
      the administrator's while Telegram controls or nobody has control. The id is 0 exactly for the
      administrator's password in web control; any other id is the next one. */
  lemma GrantedExactly(s: Server, client: nat, password: string)
    requires Valid(s) && Live(s, client)
    ensures var r := Step(s, Receive(client, Auth(password)));
            var waiting := Entry(-1, client) in s.clients;
            var admin, telegram := password == s.adminPassword, s.interface == FromTelegram;
            var free := forall e <- s.clients :: e.key != 0;
            && (r.next.ids[client] != s.ids[client] <==>
                waiting && (if admin then telegram || free else password == s.userPassword))
            && (r.next.ids[client] != s.ids[client] ==>
                r.next.ids[client] == (if admin && !telegram then 0 else s.currId + 1) && r.next.issued ==
                  (if admin && !telegram then s.issued else s.issued + [s.currId + 1]))
            && r.out == (if !waiting then [] else [AuthReply(client, r.next.ids[client])])
            && (forall c :: 0 <= c < |s.ids| && c != client ==> r.next.ids[c] == s.ids[c])
            && (r.next.ids[client] == s.ids[client] ==> r.next == s)
  {
    KeyInUse(s.clients, 0);
    if Entry(-1, client) in s.clients {
      assert s.ids[client] == -1 && s.currId >= 1;
    }
    hide Rekey, HasKey, SortedKeys, EntriesDistinct, AuthorizedRegistered, KeysAreIds, IdsNeverReused;
  }

  lemma KeyInUse(m: seq<Entry>, key: int)
    ensures HasKey(m, key) <==> exists e <- m :: e.key == key
  {
    if HasKey(m, key) {
      assert m[FindKey(m, key)] in m;
    }
  }

  // ----- Runs -----

  predicate Sent(es: seq<Event>, k: nat, client: nat, password: string) {
    k < |es| && es[k] == Receive(client, Auth(password))
  }

  lemma {:induction false} RunSnoc(s: Server, es: seq<Event>, e: Event)
    ensures Run(s, es + [e]) == Step(Run(s, es), e).next
    decreases |es|
  {
    hide Step;
    if es == [] {
      assert [] + [e] == [e] && [e][1..] == [];
    } else {
      assert (es + [e])[1..] == es[1..] + [e];
      RunSnoc(Step(s, es[0]).next, es[1..], e);
    }
  }

  /** The settings, and how an id can come about in one step. */
  lemma StepGrants(s: Server, e: Event, client: nat)
    requires Valid(s) && client < |Step(s, e).next.ids| && Step(s, e).next.ids[client] >= 0
    ensures var id := Step(s, e).next.ids[client];
            || (client < |s.ids| && s.ids[client] == id)
            || (e.Receive? && e.client == client && e.message.Auth? &&
                if id == 0 then e.message.password == s.adminPassword && s.interface == FromWeb
                else e.message.password == s.adminPassword || e.message.password == s.userPassword)
  {
    if e.Receive? && e.message.Auth? && Live(s, e.client) {
      GrantedExactly(s, e.client, e.message.password);
      hide Authorize, Valid;
    }
  }

  lemma StepSettings(s: Server, e: Event)
    ensures var t := Step(s, e).next;
            t.interface == s.interface && t.adminPassword == s.adminPassword && t.userPassword == s.userPassword
  {
    hide Rekey, HasKey, Insert, EraseAt, FindKey;
  }

  lemma {:induction false} RunSettings(s: Server, es: seq<Event>)
    ensures var t := Run(s, es);
            t.interface == s.interface && t.adminPassword == s.adminPassword && t.userPassword == s.userPassword
    decreases |es|
  {
    hide Step;
    if es != [] {
      StepSettings(s, es[0]);
      RunSettings(Step(s, es[0]).next, es[1..]);
    }
  }

  /** Over every run, a session that has an id has sent one of the two passwords, and the one with id 0
      the administrator's, in web control. */
  lemma {:induction false} IdsWereEarned(interface: Interface, admin: string, user: string, es: seq<Event>, client: nat)
    returns (k: nat, password: string)
    requires var s := Run(Initial(interface, admin, user), es); client < |s.ids| && s.ids[client] >= 0
    ensures var s := Run(Initial(interface, admin, user), es);
            && Sent(es, k, client, password)
            && if s.ids[client] == 0 then password == admin && interface == FromWeb
               else password == admin || password == user
    decreases |es|
  {
    hide Step, Valid;
    var s0 := Initial(interface, admin, user);
    assert es != [];
    var n := |es| - 1;
    assert es == es[..n] + [es[n]];
    RunSnoc(s0, es[..n], es[n]);
    ReachableValid(s0, es[..n]);
    RunSettings(s0, es[..n]);
    var before := Run(s0, es[..n]);
    StepGrants(before, es[n], client);
    if client < |before.ids| && before.ids[client] == Run(s0, es).ids[client] {
      k, password := IdsWereEarned(interface, admin, user, es[..n], client);
    } else {
      k, password := n, es[n].message.password;
    }
  }

  lemma ReachableValid(s: Server, es: seq<Event>)
    requires s == Initial(s.interface, s.adminPassword, s.userPassword)
    ensures Valid(Run(s, es))
  {
    RunKeeps(s, es);
  }

  /** Whoever controls the program from the web has sent the administrator's password. */
  lemma ControllerSentAdminPassword(interface: Interface, admin: string, user: string, es: seq<Event>, client: nat)
    returns (k: nat)
    requires Entry(0, client) in Run(Initial(interface, admin, user), es).clients
    ensures Sent(es, k, client, admin) && interface == FromWeb
  {
    var s := Run(Initial(interface, admin, user), es);
    ReachableValid(Initial(interface, admin, user), es);
    assert client < |s.ids| && s.ids[client] == 0;
    var password;
    k, password := IdsWereEarned(interface, admin, user, es, client);
  }

  // ----- Replies -----

  /** What a message other than a log-in is answered with: nothing goes to a session without an id except
      a complaint about unreadable text. */
  lemma RepliesExactly(s: Server, client: nat, message: Message)
    requires Live(s, client) && !message.Auth?
    ensures var r, id := Step(s, Receive(client, message)), s.ids[client];
            && r.next == s && |r.out| <= 1
            && (r.out == [ErrorReply(client, 3)] <==>
                message == Unreadable || (id >= 0 && message == Request(Unknown)))
            && (r.out == [ErrorReply(client, 2)] <==>
                id > 0 && message.Request? && (message.command == RunTrade || message.command.DeleteOrder?))
            && (r.out == [ErrorReply(client, 1)] <==>
                id > 0 && message.Request? && message.command.TradeData? &&
                message.command.action.Some? && message.command.action.value != "get")
            && (r.out == [Raised(client)] <==>
                || message == WithoutCommand
                || (id > 0 && message == Request(TradeData(None)))
                || (id >= 0 && message == Request(Query(KeyMissing))))
            && (r.out == [QueryEvent(client)] <==> id >= 0 && message == Request(Query(Answerable)))
            && (r.out == [SymbolsReply(client)] <==> id >= 0 && message == Request(SymbolsList))
            && (r.out == [TradeRunEvent(client)] <==> id == 0 && message == Request(RunTrade))
            && (r.out == [OrderDeleteEvent(client)] <==> id == 0 && message == Request(DeleteOrder(true)))
            && ((exists o <- r.out :: o.TradeDataEvent?) <==>
                message.Request? && message.command.TradeData? &&
                (id == 0 || (id > 0 && message.command.action == Some("get"))))
            && (r.out != [] && r.out[0].TradeDataEvent? ==>
                r.out[0] == TradeDataEvent(client, message.command.action))
  {
    var out := Step(s, Receive(client, message)).out;
    if out != [] {
      assert out[0] in out;
    }
  }
}

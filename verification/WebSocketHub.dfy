/**
 * The WebSocket hub (src/websocket.go:47-126): one goroutine that registers, unregisters and evicts clients
 * and hands them session messages, and any number of goroutines that broadcast to all clients meanwhile.
 */
module WebSocketHub {
  import opened Text

  type ClientId = nat

  /** A message for all clients has no session ID. */
  datatype Message = ToSession(sessionId: string, body: string) | ToAll(body: string)

  const CHANNEL_CAPACITY := 256

  /** A client, everything ever put into its send channel, how much of that was taken out, and whether it is open. */
  datatype Client = Client(sessionId: string, sent: seq<Message>, received: nat, open: bool, registered: bool, since: nat)

  /** Where the hub's goroutine is. In a state that changes the client map it waits for the write lock. */
  datatype Position =
    | Waiting
    | Registering(client: ClientId)
    | Unregistering(client: ClientId)
    | Sending(message: Message, todo: set<ClientId>)
    | Evicting(message: Message, client: ClientId, todo: set<ClientId>)

  /** A goroutine in BroadcastToAll, which holds the read lock. */
  datatype Reader = Reader(message: Message, todo: set<ClientId>)

  /** casts lists the session messages that the hub has taken from its channel, in order. */
  datatype Hub = Hub(
    clients: map<ClientId, Client>, buckets: map<string, set<ClientId>>, position: Position,
    queue: seq<Message>, casts: seq<Message>, readers: map<nat, Reader>, panicked: bool)

  datatype Action =
    | Connect(client: ClientId, sessionId: string)
    | RequestRegister(client: ClientId)
    | RequestUnregister(client: ClientId)
    | BroadcastToSession(sessionId: string, body: string)
    | Dequeue
    | Send(client: ClientId)
    | LoopEnds
    | Locked
    | BeginAll(reader: nat, body: string)
    | SendAll(reader: nat, client: ClientId)
    | EndAll(reader: nat)
    | Receive(client: ClientId)

  // ----- Steps -----

  function Bucket(h: Hub, sessionId: string): set<ClientId> {
    if sessionId in h.buckets then h.buckets[sessionId] else {}
  }

  function Buffered(c: Client): int {
    |c.sent| - c.received
  }

  /** The send case of a select: put the message into the channel, or panic if the channel is closed. */
  function Put(h: Hub, c: ClientId, message: Message): Hub {
    if c !in h.clients then h
    else if !h.clients[c].open then h.(panicked := true)
    else h.(clients := h.clients[c := h.clients[c].(sent := h.clients[c].sent + [message])])
  }

  function HasRoom(h: Hub, c: ClientId): bool {
    c in h.clients && (h.clients[c].open ==> Buffered(h.clients[c]) < CHANNEL_CAPACITY)
  }

  /** close panics on a channel that is closed already. */
  function Close(h: Hub, c: ClientId): Hub {
    if c !in h.clients then h
    else if !h.clients[c].open then h.(panicked := true)
    else h.(clients := h.clients[c := h.clients[c].(open := false)])
  }

  function Register(h: Hub, c: ClientId): Hub {
    if c !in h.clients then h
    else
      var s := h.clients[c].sessionId;
      h.(buckets := h.buckets[s := Bucket(h, s) + {c}],
         clients := h.clients[c := h.clients[c].(registered := true, since := |h.casts|)])
  }

  /** The bucket of a session loses a client, and the map an empty bucket. */
  function Unregister(h: Hub, c: ClientId): Hub {
    if c !in h.clients || c !in Bucket(h, h.clients[c].sessionId) then h
    else
      var s := h.clients[c].sessionId;
      var rest := Bucket(h, s) - {c};
      Close(h, c).(buckets := if rest == {} then h.buckets - {s} else h.buckets[s := rest])
  }

  function Evict(h: Hub, sessionId: string, c: ClientId): Hub {
    Close(h, c).(buckets := if sessionId in h.buckets then h.buckets[sessionId := h.buckets[sessionId] - {c}] else h.buckets)
  }

  /** The write lock is granted when nobody holds the read lock. */
  function LockedStep(h: Hub): Hub {
    if h.readers != map[] then h
    else
      match h.position
      case Registering(c) => Register(h, c).(position := Waiting)
      case Unregistering(c) => Unregister(h, c).(position := Waiting)
      case Evicting(m, c, todo) =>
        Evict(h, if m.ToSession? then m.sessionId else "", c).(position := Sending(m, todo))
      case _ => h
  }

  function HubStep(h: Hub, a: Action): Hub {
    match h.position
    case Waiting =>
      (match a
       case RequestRegister(c) =>
         if c in h.clients && !h.clients[c].registered then h.(position := Registering(c)) else h
       case RequestUnregister(c) => if c in h.clients then h.(position := Unregistering(c)) else h
       case Dequeue =>
         if h.queue == [] then h
         else
           var m := h.queue[0];
           h.(queue := h.queue[1..], casts := h.casts + [m],
              position := Sending(m, if m.ToSession? then Bucket(h, m.sessionId) else Bucket(h, "")))
       case _ => h)
    case Sending(m, todo) =>
      (match a
       case Send(c) =>
         if c !in todo then h
         else if HasRoom(h, c) then Put(h, c, m).(position := Sending(m, todo - {c}))
         else h.(position := Evicting(m, c, todo - {c}))
       case LoopEnds => if todo == {} then h.(position := Waiting) else h
       case _ => h)
    case _ => if a.Locked? then LockedStep(h) else h
  }

  /** All clients of all buckets. */
  function Everyone(h: Hub): set<ClientId> {
    set s, c | s in h.buckets && c in h.buckets[s] :: c
  }

  function Step(h: Hub, a: Action): Hub {
    match a
    case Connect(c, sessionId) =>
      if c in h.clients then h else h.(clients := h.clients[c := Client(sessionId, [], 0, true, false, 0)])
    case BroadcastToSession(sessionId, body) =>
      if |h.queue| < CHANNEL_CAPACITY then h.(queue := h.queue + [ToSession(sessionId, body)]) else h
    case Receive(c) =>
      if c in h.clients && Buffered(h.clients[c]) > 0
      then h.(clients := h.clients[c := h.clients[c].(received := h.clients[c].received + 1)]) else h
    case BeginAll(r, body) =>
      if r in h.readers then h else h.(readers := h.readers[r := Reader(ToAll(body), Everyone(h))])
    case SendAll(r, c) =>
      if r !in h.readers || c !in h.readers[r].todo then h
      else
        var reader := h.readers[r];
        var rest := h.readers[r := reader.(todo := reader.todo - {c})];
        if HasRoom(h, c) then Put(h, c, reader.message).(readers := rest) else h.(readers := rest)
    case EndAll(r) => if r in h.readers && h.readers[r].todo == {} then h.(readers := h.readers - {r}) else h
    case _ => HubStep(h, a)
  }

  function Run(h: Hub, actions: seq<Action>): Hub {
    if actions == [] then h else Step(Run(h, actions[..|actions| - 1]), actions[|actions| - 1])
  }

  const START := Hub(map[], map[], Waiting, [], [], map[], false)

  // ----- What holds in every state -----

  /** The client is in the bucket of its session. */
  predicate Listed(h: Hub, c: ClientId) {
    c in h.clients && c in Bucket(h, h.clients[c].sessionId)
  }

  /** The messages of a list that are for a session. */
  function ForSession(messages: seq<Message>, sessionId: string): seq<Message> {
    if messages == [] then []
    else
      var last := messages[|messages| - 1];
      ForSession(messages[..|messages| - 1], sessionId)
      + if last.ToSession? && last.sessionId == sessionId then [last] else []
  }

  /** What the hub's loop is still going to put into a client's channel. */
  function Pending(p: Position, c: ClientId): seq<Message> {
    match p
    case Sending(m, todo) => if c in todo then [m] else []
    case Evicting(m, client, todo) => if c in todo || c == client then [m] else []
    case _ => []
  }

  /** The session messages that the hub took from its channel since the client registered. */
  function Owed(h: Hub, c: ClientId): seq<Message>
    requires c in h.clients && h.clients[c].since <= |h.casts|
  {
    ForSession(h.casts[h.clients[c].since..], h.clients[c].sessionId)
  }

  /** Buckets hold exactly the registered clients whose channels are open, each under its session. */
  ghost predicate Buckets(h: Hub) {
    && (forall s, c :: s in h.buckets && c in h.buckets[s] ==> c in h.clients && h.clients[c].sessionId == s)
    && forall c :: c in h.clients ==> (Listed(h, c) <==> h.clients[c].registered && h.clients[c].open)
  }

  ghost predicate PositionOk(h: Hub) {
    match h.position
    case Waiting => true
    case Registering(c) => c in h.clients && !h.clients[c].registered
    case Unregistering(c) => c in h.clients
    case Sending(m, todo) => m.ToSession? && todo <= Bucket(h, m.sessionId)
    case Evicting(m, c, todo) =>
      m.ToSession? && todo <= Bucket(h, m.sessionId) && c in Bucket(h, m.sessionId) && c !in todo
  }

  /** While the read lock is held, no client that a reader still has to serve leaves its bucket. */
  ghost predicate ReadersOk(h: Hub) {
    forall r :: r in h.readers ==>
      h.readers[r].message.ToAll? && forall c :: c in h.readers[r].todo ==> Listed(h, c)
  }

  /** What was put into a client's channel for its session, against what the hub owed it. */
  ghost predicate Served(h: Hub, c: ClientId)
    requires c in h.clients
  {
    var client := h.clients[c];
    && client.received <= |client.sent|
    && (!client.registered ==> client.open && client.sent == [])
    && (client.registered ==>
          && client.since <= |h.casts|
          && if client.open
             then ForSession(client.sent, client.sessionId) + Pending(h.position, c) == Owed(h, c)
             else ForSession(client.sent, client.sessionId) <= Owed(h, c))
  }

  ghost predicate Inv(h: Hub) {
    && !h.panicked && Buckets(h) && PositionOk(h) && ReadersOk(h)
    && (forall i :: 0 <= i < |h.queue| ==> h.queue[i].ToSession?)
    && forall c :: c in h.clients ==> Served(h, c)
  }

  // ----- Every step keeps the invariant -----

  lemma {:induction false} ForSessionOfNext(messages: seq<Message>, m: Message, sessionId: string)
    ensures ForSession(messages + [m], sessionId)
         == ForSession(messages, sessionId) + if m.ToSession? && m.sessionId == sessionId then [m] else []
  {
    assert (messages + [m])[..|messages|] == messages;
  }

  lemma {:induction false} OwedAfterCast(h: Hub, h': Hub, c: ClientId, m: Message)
    requires c in h.clients && h.clients[c].since <= |h.casts|
    requires h'.casts == h.casts + [m] && c in h'.clients && h'.clients[c] == h.clients[c]
    ensures Owed(h', c) == Owed(h, c) + if m.ToSession? && m.sessionId == h.clients[c].sessionId then [m] else []
  {
    var since := h.clients[c].since;
    assert h'.casts[since..] == h.casts[since..] + [m];
    ForSessionOfNext(h.casts[since..], m, h.clients[c].sessionId);
  }

  /** A step that leaves map, casts and what is pending alone. */
  lemma {:induction false} FrameKeeps(h: Hub, h': Hub)
    requires Inv(h) && h'.clients == h.clients && h'.buckets == h.buckets && h'.casts == h.casts && !h'.panicked
    requires PositionOk(h') && ReadersOk(h')
    requires forall c :: Pending(h'.position, c) == Pending(h.position, c)
    requires forall i :: 0 <= i < |h'.queue| ==> h'.queue[i].ToSession?
    ensures Inv(h')
  {
    forall c | c in h'.clients ensures Served(h', c) {
      assert Served(h, c);
    }
  }

  /** The buckets speak of sessions, of who registered, and of which channels are open, and of nothing else. */
  lemma {:induction false} ListsStay(h: Hub, h': Hub)
    requires Buckets(h) && h'.buckets == h.buckets && h.clients.Keys <= h'.clients.Keys
    requires forall c :: c in h.clients ==>
               && h'.clients[c].sessionId == h.clients[c].sessionId
               && h'.clients[c].registered == h.clients[c].registered && h'.clients[c].open == h.clients[c].open
    requires forall c :: c in h'.clients && c !in h.clients ==> !h'.clients[c].registered
    ensures Buckets(h') && forall c :: Listed(h, c) ==> Listed(h', c)
  {
    forall c | c in h'.clients ensures Listed(h', c) <==> h'.clients[c].registered && h'.clients[c].open {
      if c in h.clients {
        assert Listed(h, c) <==> Listed(h', c);
      }
    }
  }

  lemma {:induction false} ReadersStay(h: Hub, h': Hub)
    requires ReadersOk(h) && h'.readers == h.readers && forall c :: Listed(h, c) ==> Listed(h', c)
    ensures ReadersOk(h')
  {
  }

  lemma {:induction false} ConnectKeeps(h: Hub, c: ClientId, sessionId: string)
    requires Inv(h)
    ensures Inv(Step(h, Connect(c, sessionId)))
  {
    var h' := Step(h, Connect(c, sessionId));
    ListsStay(h, h');
    ReadersStay(h, h');
    forall d | d in h'.clients ensures Served(h', d) {
      if d in h.clients {
        assert Served(h, d);
      }
    }
  }

  /** One client takes one message out of its channel. */
  lemma {:induction false} ReceivedKeeps(h: Hub, h': Hub, c: ClientId)
    requires Inv(h) && c in h.clients && Buffered(h.clients[c]) > 0
    requires h' == h.(clients := h.clients[c := h.clients[c].(received := h.clients[c].received + 1)])
    ensures Inv(h')
  {
    ListsStay(h, h');
    ReadersStay(h, h');
    forall d | d in h'.clients ensures Served(h', d) {
      assert Served(h, d);
    }
  }

  lemma {:induction false} ReceiveShows(h: Hub, c: ClientId)
    ensures Step(h, Receive(c))
         == if c in h.clients && Buffered(h.clients[c]) > 0
            then h.(clients := h.clients[c := h.clients[c].(received := h.clients[c].received + 1)]) else h
  {
  }

  lemma {:induction false} ReceiveKeeps(h: Hub, c: ClientId)
    requires Inv(h)
    ensures Inv(Step(h, Receive(c)))
  {
    ReceiveShows(h, c);
    if c in h.clients && Buffered(h.clients[c]) > 0 {
      ReceivedKeeps(h, h.(clients := h.clients[c := h.clients[c].(received := h.clients[c].received + 1)]), c);
    }
  }

  lemma {:induction false} BeginAllKeeps(h: Hub, r: nat, body: string)
    requires Inv(h)
    ensures Inv(Step(h, BeginAll(r, body)))
  {
    var h' := Step(h, BeginAll(r, body));
    forall q, d | q in h'.readers && d in h'.readers[q].todo ensures Listed(h', d) {
      if q in h.readers {
        assert Listed(h, d);
      }
    }
    FrameKeeps(h, h');
  }

  /** Putting a message into the open channel of a listed client changes nothing else. */
  lemma {:induction false} PutShows(h: Hub, c: ClientId, m: Message)
    requires Inv(h) && Listed(h, c)
    ensures var h' := Put(h, c, m);
            && h' == h.(clients := h'.clients)
            && h'.clients == h.clients[c := h.clients[c].(sent := h.clients[c].sent + [m])]
  {
  }

  lemma {:induction false} PutServes(h: Hub, h': Hub, c: ClientId, m: Message)
    requires Inv(h) && Listed(h, c) && h'.casts == h.casts
    requires h'.clients == h.clients[c := h.clients[c].(sent := h.clients[c].sent + [m])]
    requires m.ToSession? ==> m.sessionId == h.clients[c].sessionId
    requires forall d :: d != c ==> Pending(h'.position, d) == Pending(h.position, d)
    requires Pending(h.position, c) == (if m.ToSession? then [m] else []) + Pending(h'.position, c)
    ensures forall d :: d in h'.clients ==> Served(h', d)
  {
    forall d | d in h'.clients ensures Served(h', d) {
      assert Served(h, d);
      if d == c {
        ForSessionOfNext(h.clients[c].sent, m, h.clients[c].sessionId);
        Associative(ForSession(h.clients[c].sent, h.clients[c].sessionId), if m.ToSession? then [m] else [],
                    Pending(h'.position, c));
      }
    }
  }

  lemma {:induction false} ServedAll(h: Hub, h': Hub, r: nat, c: ClientId)
    requires Inv(h) && r in h.readers && c in h.readers[r].todo && Listed(h, c)
    requires h' == h.(clients := h.clients[c := h.clients[c].(sent := h.clients[c].sent + [h.readers[r].message])],
                      readers := h.readers[r := h.readers[r].(todo := h.readers[r].todo - {c})])
    ensures Inv(h')
  {
    PutServes(h, h', c, h.readers[r].message);
    ListsStay(h, h');
  }

  lemma {:induction false} SendAllKeeps(h: Hub, r: nat, c: ClientId)
    requires Inv(h)
    ensures Inv(Step(h, SendAll(r, c)))
  {
    var h' := Step(h, SendAll(r, c));
    if r in h.readers && c in h.readers[r].todo {
      assert Listed(h, c);
      if HasRoom(h, c) {
        PutShows(h, c, h.readers[r].message);
        ServedAll(h, h', r, c);
      } else {
        FrameKeeps(h, h');
      }
    }
  }

  lemma {:induction false} EndAllKeeps(h: Hub, r: nat)
    requires Inv(h)
    ensures Inv(Step(h, EndAll(r)))
  {
    FrameKeeps(h, Step(h, EndAll(r)));
  }

  lemma {:induction false} SentKeeps(h: Hub, h': Hub, c: ClientId)
    requires Inv(h) && h.position.Sending? && c in h.position.todo && Listed(h, c)
    requires h' == h.(clients := h.clients[c := h.clients[c].(sent := h.clients[c].sent + [h.position.message])],
                      position := Sending(h.position.message, h.position.todo - {c}))
    ensures Inv(h')
  {
    PutServes(h, h', c, h.position.message);
    ListsStay(h, h');
    ReadersStay(h, h');
  }

  lemma {:induction false} SendKeeps(h: Hub, c: ClientId)
    requires Inv(h) && h.position.Sending? && c in h.position.todo
    ensures Inv(Step(h, Send(c)))
  {
    var h', m := Step(h, Send(c)), h.position.message;
    assert c in Bucket(h, m.sessionId) && Listed(h, c);
    if HasRoom(h, c) {
      PutShows(h, c, m);
      SentKeeps(h, h', c);
    } else {
      FrameKeeps(h, h');
    }
  }

  lemma {:induction false} DequeueKeeps(h: Hub)
    requires Inv(h) && h.position == Waiting && h.queue != []
    ensures Inv(Step(h, Dequeue))
  {
    var h', m := Step(h, Dequeue), h.queue[0];
    forall c | c in h'.clients ensures Served(h', c) {
      assert Served(h, c);
      if h.clients[c].registered {
        OwedAfterCast(h, h', c, m);
        assert Listed(h, c) <==> h.clients[c].open;
      }
    }
    forall d | d in h'.clients ensures Listed(h', d) <==> h'.clients[d].registered && h'.clients[d].open {
      assert Listed(h, d) <==> Listed(h', d);
    }
  }

  lemma {:induction false} RegisterKeeps(h: Hub)
    requires Inv(h) && h.position.Registering? && h.readers == map[]
    ensures Inv(Step(h, Locked))
  {
    var h', c := Step(h, Locked), h.position.client;
    forall d | d in h'.clients ensures Served(h', d) {
      assert Served(h, d);
      if d == c {
        assert h'.casts[|h.casts|..] == [];
      }
    }
    forall d | d in h'.clients ensures Listed(h', d) <==> h'.clients[d].registered && h'.clients[d].open {
      assert d != c ==> (Listed(h, d) <==> Listed(h', d));
    }
  }

  /** A client that leaves its bucket and is closed, while no reader is about. */
  lemma {:induction false} LeaveKeeps(h: Hub, h': Hub, c: ClientId)
    requires Inv(h) && Listed(h, c) && h'.readers == map[] && h'.casts == h.casts && h'.queue == h.queue && !h'.panicked
    requires h'.clients == h.clients[c := h.clients[c].(open := false)]
    requires forall s :: Bucket(h', s) == Bucket(h, s) - {c}
    requires PositionOk(h')
    requires forall d :: d != c ==> Pending(h'.position, d) == Pending(h.position, d)
    ensures Inv(h')
  {
    forall d | d in h'.clients ensures Served(h', d) {
      assert Served(h, d);
    }
    forall s, d | s in h'.buckets && d in h'.buckets[s] ensures d in h'.clients && h'.clients[d].sessionId == s {
      assert d in Bucket(h', s) && d in Bucket(h, s);
    }
    forall d | d in h'.clients ensures Listed(h', d) <==> h'.clients[d].registered && h'.clients[d].open {
      assert Bucket(h', h.clients[d].sessionId) == Bucket(h, h.clients[d].sessionId) - {c};
      assert Listed(h, d) <==> h.clients[d].registered && h.clients[d].open;
    }
  }

  lemma {:induction false} UnregisterKeeps(h: Hub)
    requires Inv(h) && h.position.Unregistering? && h.readers == map[]
    ensures Inv(Step(h, Locked))
  {
    var h', c := Step(h, Locked), h.position.client;
    if Listed(h, c) {
      forall s ensures Bucket(h', s) == Bucket(h, s) - {c} {
        assert s in h.buckets && c in h.buckets[s] ==> s == h.clients[c].sessionId;
      }
      LeaveKeeps(h, h', c);
    } else {
      FrameKeeps(h, h');
    }
  }

  lemma {:induction false} EvictKeeps(h: Hub)
    requires Inv(h) && h.position.Evicting? && h.readers == map[]
    ensures Inv(Step(h, Locked))
  {
    var h', c, m := Step(h, Locked), h.position.client, h.position.message;
    assert Listed(h, c);
    forall s ensures Bucket(h', s) == Bucket(h, s) - {c} {
      assert s in h.buckets && c in h.buckets[s] ==> s == h.clients[c].sessionId;
    }
    LeaveKeeps(h, h', c);
  }

  lemma {:induction false} HubStepKeeps(h: Hub, a: Action)
    requires Inv(h) && Step(h, a) == HubStep(h, a)
    ensures Inv(HubStep(h, a))
  {
    match h.position {
      case Waiting =>
        if a.Dequeue? && h.queue != [] {
          DequeueKeeps(h);
        } else {
          FrameKeeps(h, HubStep(h, a));
        }
      case Sending(m, todo) =>
        if a.Send? && a.client in todo {
          SendKeeps(h, a.client);
        } else {
          FrameKeeps(h, HubStep(h, a));
        }
      case Registering(_) =>
        if a.Locked? && h.readers == map[] {
          RegisterKeeps(h);
        }
      case Unregistering(_) =>
        if a.Locked? && h.readers == map[] {
          UnregisterKeeps(h);
        }
      case Evicting(_, _, _) =>
        if a.Locked? && h.readers == map[] {
          EvictKeeps(h);
        }
    }
  }

  lemma {:induction false} StepKeeps(h: Hub, a: Action)
    requires Inv(h)
    ensures Inv(Step(h, a))
  {
    match a {
      case Connect(c, sessionId) => ConnectKeeps(h, c, sessionId);
      case BroadcastToSession(_, _) => FrameKeeps(h, Step(h, a));
      case Receive(c) => ReceiveKeeps(h, c);
      case BeginAll(r, body) => BeginAllKeeps(h, r, body);
      case SendAll(r, c) => SendAllKeeps(h, r, c);
      case EndAll(r) => EndAllKeeps(h, r);
      case _ => HubStepKeeps(h, a);
    }
  }

  lemma {:induction false} RunKeeps(actions: seq<Action>)
    ensures Inv(Run(START, actions))
  {
    if actions != [] {
      RunKeeps(actions[..|actions| - 1]);
      StepKeeps(Run(START, actions[..|actions| - 1]), actions[|actions| - 1]);
    }
  }

  // ----- What follows for every run -----

  /** No channel is ever closed twice or sent on after it was closed. */
  lemma {:induction false} NoPanic(actions: seq<Action>)
    ensures !Run(START, actions).panicked
  {
    RunKeeps(actions);
  }

  /** A client that registered is in its bucket exactly while its channel is open. */
  lemma {:induction false} RegisteredIffOpen(actions: seq<Action>, c: ClientId)
    requires c in Run(START, actions).clients && Run(START, actions).clients[c].registered
    ensures var h := Run(START, actions);
            Listed(h, c) <==> h.clients[c].open
  {
    RunKeeps(actions);
  }

  // ----- Nothing is lost in the hub's channel -----

  /** The session broadcasts that entered the hub's channel in a run, in order; one that finds it full waits outside. */
  function Entered(actions: seq<Action>): seq<Message> {
    if actions == [] then []
    else
      var init, last := actions[..|actions| - 1], actions[|actions| - 1];
      if last.BroadcastToSession? && |Run(START, init).queue| < CHANNEL_CAPACITY
      then Entered(init) + [ToSession(last.sessionId, last.body)] else Entered(init)
  }

  lemma {:induction false} HubLeavesChannel(h: Hub, a: Action)
    requires !(a.Dequeue? && h.position == Waiting && h.queue != [])
    ensures HubStep(h, a).casts == h.casts && HubStep(h, a).queue == h.queue
  {
  }

  lemma {:induction false} OthersLeaveChannel(h: Hub, a: Action)
    requires !a.BroadcastToSession? && !(a.Dequeue? && h.position == Waiting && h.queue != [])
    ensures Step(h, a).casts == h.casts && Step(h, a).queue == h.queue
  {
    HubLeavesChannel(h, a);
  }

  /** Only a broadcast adds to what was taken and what waits, and only a dequeue moves the border between the two. */
  lemma {:induction false} ChannelStep(h: Hub, a: Action)
    ensures var h' := Step(h, a);
            h'.casts + h'.queue == if a.BroadcastToSession? && |h.queue| < CHANNEL_CAPACITY
                                   then h.casts + h.queue + [ToSession(a.sessionId, a.body)] else h.casts + h.queue
  {
    if a.BroadcastToSession? {
      Associative(h.casts, h.queue, [ToSession(a.sessionId, a.body)]);
    } else if a.Dequeue? && h.position == Waiting && h.queue != [] {
      assert h.queue == [h.queue[0]] + h.queue[1..];
      Associative(h.casts, [h.queue[0]], h.queue[1..]);
    } else {
      OthersLeaveChannel(h, a);
    }
  }

  /** What the hub took from its channel and what is still in it are what entered it, in order. */
  lemma {:induction false} ChannelKeepsAll(actions: seq<Action>)
    ensures Run(START, actions).casts + Run(START, actions).queue == Entered(actions)
  {
    if actions != [] {
      ChannelKeepsAll(actions[..|actions| - 1]);
      ChannelStep(Run(START, actions[..|actions| - 1]), actions[|actions| - 1]);
    }
  }

  lemma {:induction false} EnteredGrows(actions: seq<Action>, k: nat)
    requires k <= |actions|
    ensures Entered(actions[..k]) <= Entered(actions)
  {
    if k == |actions| {
      assert actions[..k] == actions;
    } else {
      var init := actions[..|actions| - 1];
      EnteredGrows(init, k);
      assert init[..k] == actions[..k] && Entered(init) <= Entered(actions);
    }
  }

  /** A client is registered by one step, at which the hub notes how much it has taken from its channel so far. */
  ghost predicate KeepsOrRegisters(h: Hub, h': Hub, a: Action, c: ClientId)
    requires c in h'.clients
  {
    if c in h.clients && h.clients[c].registered
    then (h.position != Registering(c) ==> h'.clients[c].since == h.clients[c].since)
    else a == Locked && h.position == Registering(c) && h'.clients[c].since == |h.casts|
  }

  lemma {:induction false} RegisteringHubStep(h: Hub, a: Action, c: ClientId)
    ensures var h' := HubStep(h, a);
            c in h'.clients && h'.clients[c].registered ==> KeepsOrRegisters(h, h', a, c)
  {
  }

  lemma {:induction false} RegisteringStep(h: Hub, a: Action, c: ClientId)
    ensures var h' := Step(h, a);
            c in h'.clients && h'.clients[c].registered ==> KeepsOrRegisters(h, h', a, c)
  {
    RegisteringHubStep(h, a, c);
  }

  lemma {:induction false} RegisteredOnce(actions: seq<Action>, c: ClientId) returns (k: nat)
    requires c in Run(START, actions).clients && Run(START, actions).clients[c].registered
    ensures k < |actions| && actions[k] == Locked && Run(START, actions[..k]).position == Registering(c)
    ensures Run(START, actions).clients[c].since == |Run(START, actions[..k]).casts|
  {
    k := |actions| - 1;
    var h := Run(START, actions[..k]);
    RunKeeps(actions[..k]);
    RegisteringStep(h, actions[k], c);
    if c in h.clients && h.clients[c].registered {
      var j := RegisteredOnce(actions[..k], c);
      assert actions[..k][..j] == actions[..j];
      k := j;
    }
  }

  /** No session message of another session is in the client's channel, and never more than 256 messages wait in it. */
  ghost predicate OwnOnly(client: Client) {
    && |client.sent| <= client.received + 256
    && forall i :: 0 <= i < |client.sent| && client.sent[i].ToSession? ==> client.sent[i].sessionId == client.sessionId
  }

  ghost predicate AllOwnOnly(h: Hub) {
    forall c :: c in h.clients ==> OwnOnly(h.clients[c])
  }

  lemma {:induction false} OwnOnlyPut(h: Hub, c: ClientId, m: Message)
    requires AllOwnOnly(h) && c in h.clients && h.clients[c].open && HasRoom(h, c)
    requires m.ToSession? ==> m.sessionId == h.clients[c].sessionId
    ensures AllOwnOnly(Put(h, c, m))
  {
    assert OwnOnly(h.clients[c].(sent := h.clients[c].sent + [m]));
  }

  lemma {:induction false} OwnOnlySend(h: Hub, c: ClientId)
    requires Inv(h) && AllOwnOnly(h) && h.position.Sending? && c in h.position.todo
    ensures AllOwnOnly(Step(h, Send(c)))
  {
    TodoIsListed(h, h.position.message, h.position.todo, c);
    assert Listed(h, c);
    if HasRoom(h, c) {
      OwnOnlyPut(h, c, h.position.message);
    }
  }

  lemma {:induction false} OwnOnlySendAll(h: Hub, r: nat, c: ClientId)
    requires Inv(h) && AllOwnOnly(h)
    ensures AllOwnOnly(Step(h, SendAll(r, c)))
  {
    if r in h.readers && c in h.readers[r].todo && HasRoom(h, c) {
      assert Listed(h, c);
      OwnOnlyPut(h, c, h.readers[r].message);
    }
  }

  lemma {:induction false} OwnOnlyHubStep(h: Hub, a: Action)
    requires AllOwnOnly(h) && !(a.Send? && h.position.Sending? && a.client in h.position.todo)
    ensures AllOwnOnly(HubStep(h, a))
  {
  }

  lemma {:induction false} OwnOnlyStep(h: Hub, a: Action)
    requires Inv(h) && AllOwnOnly(h)
    ensures AllOwnOnly(Step(h, a))
  {
    match a {
      case Connect(c, sessionId) => assert OwnOnly(Client(sessionId, [], 0, true, false, 0));
      case Receive(c) => ReceiveShows(h, c);
      case SendAll(r, c) => OwnOnlySendAll(h, r, c);
      case BroadcastToSession(_, _) =>
      case BeginAll(_, _) =>
      case EndAll(_) =>
      case Send(c) =>
        if h.position.Sending? && c in h.position.todo {
          OwnOnlySend(h, c);
        } else {
          OwnOnlyHubStep(h, a);
        }
      case _ => OwnOnlyHubStep(h, a);
    }
  }

  lemma {:induction false} OwnMessagesOnly(actions: seq<Action>)
    ensures AllOwnOnly(Run(START, actions))
  {
    if actions != [] {
      var init := actions[..|actions| - 1];
      OwnMessagesOnly(init);
      RunKeeps(init);
      OwnOnlyStep(Run(START, init), actions[|actions| - 1]);
    }
  }

  /**
   * The k-th step registered the client. Of the broadcasts that entered the channel, all but the first n had not
   * been taken from it by then. Whenever the hub waits for work, a client that is still registered has been sent
   * each of them that is for its session, in order, up to those that still wait in the channel; and nobody, not
   * even an evicted client, ever missed one in between, or got one of another session.
   */
  lemma {:induction false} NoMissedBroadcast(actions: seq<Action>, c: ClientId) returns (k: nat, n: nat)
    requires c in Run(START, actions).clients && Run(START, actions).clients[c].registered
    ensures k < |actions| && actions[k] == Locked && Run(START, actions[..k]).position == Registering(c)
    ensures n + |Run(START, actions[..k]).queue| == |Entered(actions[..k])|
    ensures var h, entered := Run(START, actions), Entered(actions);
            var client, taken := h.clients[c], |entered| - |h.queue|;
            && n <= taken
            && ForSession(client.sent, client.sessionId) <= ForSession(entered[n..taken], client.sessionId)
            && (h.position == Waiting && client.open ==>
                  ForSession(client.sent, client.sessionId) == ForSession(entered[n..taken], client.sessionId))
            && |client.sent| <= client.received + 256
            && forall m :: m in client.sent && m.ToSession? ==> m.sessionId == client.sessionId
  {
    var h := Run(START, actions);
    RunKeeps(actions);
    OwnMessagesOnly(actions);
    assert Served(h, c) && OwnOnly(h.clients[c]);
    k := RegisteredOnce(actions, c);
    n := h.clients[c].since;
    ChannelKeepsAll(actions[..k]);
    ChannelKeepsAll(actions);
    assert h.casts[n..] == (h.casts + h.queue)[n..|h.casts|];
  }

  // ----- One delivery, undisturbed -----

  /** The loop over a bucket, in any order, while nobody else takes a step; an eviction waits for the lock at once. */
  function DeliverTo(h: Hub, order: seq<ClientId>): Hub {
    if order == [] then h
    else
      var before := DeliverTo(h, order[..|order| - 1]);
      var sent := Step(before, Send(order[|order| - 1]));
      if sent.position.Evicting? then Step(sent, Locked) else sent
  }

  /** What a delivery does to one client: with room in its buffer it gets the message, without it is closed. */
  function AfterDelivery(h: Hub, m: Message, c: ClientId): Client
    requires c in h.clients
  {
    if HasRoom(h, c) then h.clients[c].(sent := h.clients[c].sent + [m]) else h.clients[c].(open := false)
  }

  /** Those of a list whose buffers are full. */
  function Full(h: Hub, order: seq<ClientId>): set<ClientId> {
    set c | c in order && !HasRoom(h, c)
  }

  /** h' is h after the clients of a list were served. */
  ghost predicate DeliveredTo(h: Hub, h': Hub, m: Message, order: seq<ClientId>)
    requires m.ToSession? && forall c :: c in order ==> c in h.clients
  {
    && h'.clients.Keys == h.clients.Keys
    && (forall c :: c in h.clients ==> h'.clients[c] == if c in order then AfterDelivery(h, m, c) else h.clients[c])
    && Bucket(h', m.sessionId) == Bucket(h, m.sessionId) - Full(h, order)
    && h'.buckets - {m.sessionId} == h.buckets - {m.sessionId}
    && h'.queue == h.queue && h'.casts == h.casts && h'.readers == h.readers && h'.panicked == h.panicked
  }

  lemma {:induction false} SendShows(h: Hub, m: Message, todo: set<ClientId>, c: ClientId)
    requires h.position == Sending(m, todo) && m.ToSession? && c in todo && c in h.clients && h.clients[c].open
    requires h.readers == map[] && m.sessionId in h.buckets
    ensures var sent := Step(h, Send(c));
            var next := if sent.position.Evicting? then Step(sent, Locked) else sent;
            && next.position == Sending(m, todo - {c})
            && next.clients == h.clients[c := AfterDelivery(h, m, c)]
            && next.buckets == (if HasRoom(h, c) then h.buckets
                                else h.buckets[m.sessionId := h.buckets[m.sessionId] - {c}])
            && next.queue == h.queue && next.casts == h.casts && next.readers == h.readers && next.panicked == h.panicked
  {
  }

  lemma {:induction false} FullNext(h: Hub, order: seq<ClientId>, c: ClientId)
    ensures Full(h, order + [c]) == Full(h, order) + if HasRoom(h, c) then {} else {c}
  {
  }

  lemma {:induction false} TodoIsListed(h: Hub, m: Message, todo: set<ClientId>, c: ClientId)
    requires Inv(h) && h.position == Sending(m, todo) && c in todo
    ensures m.ToSession? && c in h.clients && h.clients[c].open && c in Bucket(h, m.sessionId)
  {
    assert c in Bucket(h, m.sessionId);
    assert Listed(h, c);
  }

  /** One more client served, as SendShows says. */
  lemma {:induction false} DeliveredNext(h: Hub, h1: Hub, h2: Hub, m: Message, init: seq<ClientId>, c: ClientId)
    requires m.ToSession? && (forall d :: d in init ==> d in h.clients) && c in h.clients && c !in init
    requires DeliveredTo(h, h1, m, init) && m.sessionId in h1.buckets
    requires h2.clients == h1.clients[c := AfterDelivery(h1, m, c)]
    requires h2.buckets == (if HasRoom(h1, c) then h1.buckets
                            else h1.buckets[m.sessionId := h1.buckets[m.sessionId] - {c}])
    requires h2.queue == h1.queue && h2.casts == h1.casts && h2.readers == h1.readers && h2.panicked == h1.panicked
    ensures DeliveredTo(h, h2, m, init + [c])
  {
    FullNext(h, init, c);
    assert HasRoom(h1, c) <==> HasRoom(h, c);
    assert Bucket(h2, m.sessionId) == Bucket(h, m.sessionId) - Full(h, init + [c]);
  }

  lemma {:induction false} DeliverToNext(h: Hub, init: seq<ClientId>, c: ClientId)
    ensures var sent := Step(DeliverTo(h, init), Send(c));
            DeliverTo(h, init + [c]) == if sent.position.Evicting? then Step(sent, Locked) else sent
  {
    assert (init + [c])[..|init|] == init;
  }

  /**
   * A delivery that nobody disturbs has the effect that the contract of DeliverToSession states, in whatever order
   * the bucket is walked: clients with room get the message and stay, each other one is closed and leaves.
   */
  lemma {:induction false} UndisturbedDelivery(h: Hub, m: Message, todo: set<ClientId>, order: seq<ClientId>)
    requires Inv(h) && h.position == Sending(m, todo) && h.readers == map[]
    requires (forall c :: c in order ==> c in todo) && forall i, j :: 0 <= i < j < |order| ==> order[i] != order[j]
    ensures m.ToSession? && forall c :: c in order ==> c in h.clients
    ensures DeliverTo(h, order).position == Sending(m, todo - (set c | c in order))
    ensures DeliveredTo(h, DeliverTo(h, order), m, order)
  {
    if order != [] {
      var n := |order| - 1;
      var init, c := order[..n], order[n];
      assert order == init + [c] && c !in init;
      UndisturbedDelivery(h, m, todo, init);
      TodoIsListed(h, m, todo, c);
      DeliverToNext(h, init, c);
      NextDelivery(h, DeliverTo(h, init), m, todo, init, c);
    } else {
      assert todo - (set c | c in order) == todo;
    }
  }

  lemma {:induction false} NextDelivery(h: Hub, h1: Hub, m: Message, todo: set<ClientId>, init: seq<ClientId>, c: ClientId)
    requires m.ToSession? && (forall d :: d in init ==> d in h.clients) && c !in init && c in todo
    requires c in h.clients && h.clients[c].open && c in Bucket(h, m.sessionId) && h.readers == map[]
    requires DeliveredTo(h, h1, m, init) && h1.position == Sending(m, todo - (set d | d in init))
    ensures var sent := Step(h1, Send(c));
            var next := if sent.position.Evicting? then Step(sent, Locked) else sent;
            && DeliveredTo(h, next, m, init + [c])
            && next.position == Sending(m, todo - (set d | d in init + [c]))
  {
    assert c !in Full(h, init) && c in Bucket(h1, m.sessionId);
    SendShows(h1, m, todo - (set d | d in init), c);
    var sent := Step(h1, Send(c));
    DeliveredNext(h, h1, if sent.position.Evicting? then Step(sent, Locked) else sent, m, init, c);
    assert todo - (set d | d in init) - {c} == todo - (set d | d in init + [c]);
  }

  /** A client whose buffer holds less than 256 messages gets one more, and one whose buffer is full is closed. */
  ghost function AfterBroadcast(client: Client, m: Message, served: bool): Client {
    if !served then client
    else if |client.sent| - client.received < 256 then client.(sent := client.sent + [m])
    else client.(open := false)
  }

  ghost predicate StaysListed(h: Hub, c: ClientId) {
    c in h.clients && |h.clients[c].sent| - h.clients[c].received < 256
  }

  /** The clients of a list were served, and those with full buffers left. */
  ghost predicate BroadcastReached(h: Hub, h': Hub, m: Message, order: seq<ClientId>) {
    && h'.clients.Keys == h.clients.Keys
    && (forall c :: c in h.clients ==> h'.clients[c] == AfterBroadcast(h.clients[c], m, c in order))
    && forall s, c :: c in Bucket(h', s) <==> c in Bucket(h, s) && (c in order ==> StaysListed(h, c))
  }

  /** A broadcast that the hub takes and delivers undisturbed: the first one waiting, and no other. */
  lemma {:induction false} UndisturbedBroadcast(h: Hub, order: seq<ClientId>)
    requires Inv(h) && h.position == Waiting && h.readers == map[] && h.queue != []
    requires forall i, j :: 0 <= i < j < |order| ==> order[i] != order[j]
    requires h.queue[0].ToSession? && forall c :: c in order <==> c in Bucket(h, h.queue[0].sessionId)
    ensures var h' := Step(DeliverTo(Step(h, Dequeue), order), LoopEnds);
            && h'.position == Waiting && h'.queue == h.queue[1..] && h'.casts == h.casts + [h.queue[0]]
            && BroadcastReached(h, h', h.queue[0], order)
  {
    var m, taken := h.queue[0], Step(h, Dequeue);
    var todo := Bucket(h, m.sessionId);
    DequeueKeeps(h);
    DequeueShows(h);
    UndisturbedDelivery(taken, m, todo, order);
    var served := DeliverTo(taken, order);
    assert todo - (set c | c in order) == {};
    LoopEndsShows(served, m);
    DeliveryReaches(h, taken, served, Step(served, LoopEnds), m, order);
  }

  lemma {:induction false} DequeueShows(h: Hub)
    requires h.position == Waiting && h.queue != [] && h.queue[0].ToSession?
    ensures Step(h, Dequeue) == h.(queue := h.queue[1..], casts := h.casts + [h.queue[0]],
                                   position := Sending(h.queue[0], Bucket(h, h.queue[0].sessionId)))
  {
  }

  lemma {:induction false} LoopEndsShows(h: Hub, m: Message)
    requires h.position == Sending(m, {})
    ensures Step(h, LoopEnds) == h.(position := Waiting)
  {
  }

  lemma {:induction false} HasRoomIff(h: Hub, c: ClientId, s: string)
    requires Buckets(h) && c in Bucket(h, s)
    ensures c in h.clients && h.clients[c].sessionId == s && (HasRoom(h, c) <==> |h.clients[c].sent| - h.clients[c].received < 256)
  {
    assert Listed(h, c);
  }

  lemma {:induction false} DeliveryReaches(h: Hub, taken: Hub, served: Hub, h': Hub, m: Message, order: seq<ClientId>)
    requires Buckets(h) && taken.clients == h.clients && taken.buckets == h.buckets && m.ToSession?
    requires forall d :: d in order <==> d in Bucket(h, m.sessionId)
    requires (forall d :: d in order ==> d in taken.clients) && DeliveredTo(taken, served, m, order)
    requires h'.clients == served.clients && h'.buckets == served.buckets
    ensures BroadcastReached(h, h', m, order)
  {
    forall c | c in h.clients ensures h'.clients[c] == AfterBroadcast(h.clients[c], m, c in order) {
      if c in order {
        HasRoomIff(h, c, m.sessionId);
      }
    }
    forall s, c ensures c in Bucket(h', s) <==> c in Bucket(h, s) && (c in order ==> StaysListed(h, c)) {
      BucketAfter(h, taken, served, m, order, s, c);
    }
  }

  lemma {:induction false} BucketAfter(h: Hub, taken: Hub, served: Hub, m: Message, order: seq<ClientId>, s: string,
                                       c: ClientId)
    requires Buckets(h) && taken.clients == h.clients && taken.buckets == h.buckets && m.ToSession?
    requires forall d :: d in order <==> d in Bucket(h, m.sessionId)
    requires (forall d :: d in order ==> d in taken.clients) && DeliveredTo(taken, served, m, order)
    ensures c in Bucket(served, s) <==> c in Bucket(h, s) && (c in order ==> StaysListed(h, c))
  {
    if c in order {
      HasRoomIff(h, c, m.sessionId);
    }
    if s == m.sessionId {
      assert Bucket(served, s) == Bucket(h, s) - Full(taken, order);
    } else {
      assert s in served.buckets - {m.sessionId} <==> s in served.buckets;
      assert s in h.buckets - {m.sessionId} <==> s in h.buckets;
      assert Bucket(served, s) == Bucket(h, s);
      assert c in Bucket(h, s) ==> c !in order;
    }
  }

  // ----- The other exchanges, undisturbed -----

  /** A client that registers joins its session's bucket, and nobody else is touched. */
  lemma {:induction false} UndisturbedRegister(h: Hub, c: ClientId)
    requires h.position == Waiting && h.readers == map[] && c in h.clients && !h.clients[c].registered
    ensures var before, h' := h.clients[c], Step(Step(h, RequestRegister(c)), Locked);
            && h'.position == Waiting && h'.queue == h.queue && h'.casts == h.casts
            && h'.clients == h.clients[c := Client(before.sessionId, before.sent, before.received, before.open, true, |h.casts|)]
            && forall s, d :: d in Bucket(h', s) <==> d in Bucket(h, s) || (d == c && s == before.sessionId)
  {
  }

  /** One that unregisters leaves its bucket and is closed, if it still was there; an empty bucket goes. */
  lemma {:induction false} UndisturbedUnregister(h: Hub, c: ClientId)
    requires Inv(h) && h.position == Waiting && h.readers == map[] && c in h.clients
    ensures var own, h' := h.clients[c].sessionId, Step(Step(h, RequestUnregister(c)), Locked);
            && h'.position == Waiting && h'.queue == h.queue && h'.casts == h.casts
            && (c !in Bucket(h, own) ==> h'.clients == h.clients && h'.buckets == h.buckets)
            && (c in Bucket(h, own) ==>
                  && h'.clients == h.clients[c := h.clients[c].(open := false)]
                  && (forall s :: s in h'.buckets <==> s in h.buckets && (s == own ==> h.buckets[s] != {c}))
                  && forall s :: s in h'.buckets ==> h'.buckets[s] == h.buckets[s] - if s == own then {c} else {})
  {
    assert Listed(h, c) <==> h.clients[c].registered && h.clients[c].open;
  }

  /** The loops of BroadcastToAll over the buckets, in any order, while nobody else takes a step. */
  function SendToAll(h: Hub, r: nat, order: seq<ClientId>): Hub {
    if order == [] then h else Step(SendToAll(h, r, order[..|order| - 1]), SendAll(r, order[|order| - 1]))
  }

  lemma {:induction false} SendAllShows(h: Hub, r: nat, c: ClientId)
    requires r in h.readers && c in h.readers[r].todo && c in h.clients && h.clients[c].open
    ensures var h', reader := Step(h, SendAll(r, c)), h.readers[r];
            && h' == h.(clients := h'.clients, readers := h.readers[r := reader.(todo := reader.todo - {c})])
            && h'.clients == if HasRoom(h, c) then h.clients[c := h.clients[c].(sent := h.clients[c].sent + [reader.message])]
                             else h.clients
  {
  }

  /** g is h after a reader served the clients of a list. */
  ghost predicate ToldAll(h: Hub, g: Hub, r: nat, message: Message, order: seq<ClientId>) {
    && r in h.readers && r in g.readers && g == h.(clients := g.clients, readers := g.readers)
    && g.readers == h.readers[r := Reader(message, h.readers[r].todo - set c | c in order)]
    && g.clients.Keys == h.clients.Keys
    && forall c :: c in h.clients ==>
         g.clients[c] == if c in order && HasRoom(h, c) then h.clients[c].(sent := h.clients[c].sent + [message])
                         else h.clients[c]
  }

  lemma {:induction false} ToldAllNext(h: Hub, g: Hub, r: nat, message: Message, init: seq<ClientId>, c: ClientId)
    requires ToldAll(h, g, r, message, init) && c !in init && c in h.readers[r].todo && c in h.clients && h.clients[c].open
    ensures ToldAll(h, Step(g, SendAll(r, c)), r, message, init + [c])
  {
    SendAllShows(g, r, c);
    assert HasRoom(g, c) <==> HasRoom(h, c);
    assert h.readers[r].todo - (set d | d in init) - {c} == h.readers[r].todo - set d | d in init + [c];
  }

  lemma {:induction false} SendToAllTells(h: Hub, r: nat, order: seq<ClientId>)
    requires r in h.readers && forall i, j :: 0 <= i < j < |order| ==> order[i] != order[j]
    requires forall c :: c in order ==> c in h.readers[r].todo && c in h.clients && h.clients[c].open
    ensures ToldAll(h, SendToAll(h, r, order), r, h.readers[r].message, order)
  {
    if order == [] {
      assert h.readers[r].todo - (set c: ClientId | c in order) == h.readers[r].todo;
    } else {
      var init, c := order[..|order| - 1], order[|order| - 1];
      assert order == init + [c] && c !in init;
      SendToAllTells(h, r, init);
      ToldAllNext(h, SendToAll(h, r, init), r, h.readers[r].message, init, c);
    }
  }

  /** A message for all reaches each client in a bucket that has room, and changes nothing else. */
  lemma {:induction false} UndisturbedBroadcastToAll(h: Hub, r: nat, body: string, order: seq<ClientId>)
    requires Inv(h) && r !in h.readers && forall i, j :: 0 <= i < j < |order| ==> order[i] != order[j]
    requires forall c :: c in order <==> Listed(h, c)
    ensures var h' := Step(SendToAll(Step(h, BeginAll(r, body)), r, order), EndAll(r));
            && h' == h.(clients := h'.clients) && h'.clients.Keys == h.clients.Keys
            && forall c :: c in h.clients ==>
                 h'.clients[c] == if Listed(h, c) && |h.clients[c].sent| - h.clients[c].received < 256
                                  then h.clients[c].(sent := h.clients[c].sent + [ToAll(body)]) else h.clients[c]
  {
    var begun := Step(h, BeginAll(r, body));
    EveryoneIsListed(h);
    assert Everyone(h) - (set c | c in order) == {};
    assert forall c :: c in order ==> c in h.clients && h.clients[c].open;
    SendToAllTells(begun, r, order);
    EndAllShows(h, SendToAll(begun, r, order), r, ToAll(body));
  }

  lemma {:induction false} EveryoneIsListed(h: Hub)
    requires Buckets(h)
    ensures forall c :: c in Everyone(h) <==> Listed(h, c)
  {
    forall c ensures c in Everyone(h) <==> Listed(h, c) {
      assert Listed(h, c) ==> h.clients[c].sessionId in h.buckets;
    }
  }

  lemma {:induction false} EndAllShows(h: Hub, g: Hub, r: nat, message: Message)
    requires r !in h.readers && g.readers == h.readers[r := Reader(message, {})]
    ensures Step(g, EndAll(r)) == g.(readers := h.readers)
  {
    assert h.readers[r := Reader(message, {})] - {r} == h.readers;
  }

  // ----- The hub's code -----

  class WSClient {
    const sessionId: string
    /** The channel's buffer. */
    var send: seq<Message>
    var closed: bool

    constructor (sessionId: string)
      ensures this.sessionId == sessionId && send == [] && !closed
    {
      this.sessionId := sessionId;
      send, closed := [], false;
    }

    predicate HasRoom()
      reads this
    {
      |send| < CHANNEL_CAPACITY
    }
  }

  class WSHub {
    var clients: map<string, set<WSClient>>

    constructor ()
      ensures Valid() && clients == map[]
    {
      clients := map[];
    }

    function Members(): set<WSClient>
      reads this
    {
      set s, c | s in clients && c in clients[s] :: c
    }

    function InSession(sessionId: string): set<WSClient>
      reads this
    {
      if sessionId in clients then clients[sessionId] else {}
    }

    /** Every client is in the bucket of its own session, and none of them is closed. */
    ghost predicate Valid()
      reads this, Members()
    {
      forall s, c :: s in clients && c in clients[s] ==> c.sessionId == s && !c.closed
    }

    method Register(client: WSClient)
      requires Valid() && !client.closed
      modifies this
      ensures Valid() && clients == old(clients)[client.sessionId := old(InSession(client.sessionId)) + {client}]
    {
      if client.sessionId !in clients {
        clients := clients[client.sessionId := {}];
      }
      clients := clients[client.sessionId := clients[client.sessionId] + {client}];
    }

    /** A client that is in its bucket leaves it and is closed; for any other client nothing happens. */
    method Unregister(client: WSClient)
      requires Valid()
      modifies this, client
      ensures Valid() && client.send == old(client.send)
      ensures client !in old(InSession(client.sessionId)) ==> clients == old(clients) && client.closed == old(client.closed)
      ensures client in old(InSession(client.sessionId)) ==>
                && client.closed && client !in Members()
                && InSession(client.sessionId) == old(InSession(client.sessionId)) - {client}
                && (client.sessionId in clients ==> clients[client.sessionId] != {})
                && clients - {client.sessionId} == old(clients) - {client.sessionId}
    {
      if client.sessionId in clients && client in clients[client.sessionId] {
        var rest := clients[client.sessionId] - {client};
        clients := clients[client.sessionId := rest];
        assert !client.closed;
        client.closed := true;
        if |rest| == 0 {
          clients := clients - {client.sessionId};
        }
      }
    }

    /**
     * A session message: each client of the session with room in its buffer gets it and stays, each other one
     * is closed and leaves.
     */
    method DeliverToSession(message: Message)
      requires Valid() && message.ToSession?
      modifies this, InSession(message.sessionId)
      ensures Valid()
      ensures forall c :: c in old(InSession(message.sessionId)) ==>
                if old(c.HasRoom()) then c in InSession(message.sessionId) && c.send == old(c.send) + [message] && !c.closed
                else c !in InSession(message.sessionId) && c.send == old(c.send) && c.closed
      ensures InSession(message.sessionId) <= old(InSession(message.sessionId))
      ensures clients - {message.sessionId} == old(clients) - {message.sessionId}
    {
      var s := message.sessionId;
      var bucket := InSession(s);
      var todo := bucket;
      while todo != {}
        invariant todo <= bucket && Valid()
        invariant InSession(s) <= bucket && todo <= InSession(s)
        invariant clients - {s} == old(clients) - {s} && (bucket != {} ==> s in clients)
        invariant forall c :: c in todo ==> c.send == old(c.send)
        invariant forall c :: c in bucket - todo ==>
                    if old(c.HasRoom()) then c in InSession(s) && c.send == old(c.send) + [message] && !c.closed
                    else c !in InSession(s) && c.send == old(c.send) && c.closed
        decreases |todo|
      {
        var client :| client in todo;
        assert client in clients[s] && !client.closed;
        todo := todo - {client};
        if client.HasRoom() {
          client.send := client.send + [message];
        } else {
          clients := clients[s := clients[s] - {client}];
          client.closed := true;
        }
      }
    }

    /** A message for all: clients with a full buffer miss it, and nobody is closed. */
    method BroadcastToAll(body: string)
      requires Valid()
      modifies Members()
      ensures Valid()
      ensures forall c :: c in Members() ==>
                c.closed == old(c.closed) && c.send == old(c.send) + if old(c.HasRoom()) then [ToAll(body)] else []
    {
      var todo := Members();
      while todo != {}
        invariant todo <= Members() && Valid()
        invariant forall c :: c in todo ==> c.send == old(c.send)
        invariant forall c :: c in Members() ==> c.closed == old(c.closed)
        invariant forall c :: c in Members() - todo ==>
                    c.send == old(c.send) + if old(c.HasRoom()) then [ToAll(body)] else []
        decreases |todo|
      {
        var client :| client in todo;
        assert !client.closed;
        todo := todo - {client};
        if client.HasRoom() {
          client.send := client.send + [ToAll(body)];
        }
      }
    }
  }
}

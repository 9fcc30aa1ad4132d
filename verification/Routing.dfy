/** Every interleaving of sends to users across a cluster. Registry contents, presence answers
    and enqueue outcomes are whatever they happen to be at each step; envelopes may be lost or
    overtake one another, and each published envelope is received at most once. */
module Routing {
  import opened Identity
  import opened Protocol
  import Manager

  /** A session on its node. */
  datatype Peer = Peer(node: NodeId, id: SessionId)

  /** An envelope on its way, with the send that published it. */
  datatype Message = Message(call: nat, to: NodeId, envelope: Envelope)

  datatype Stage =
    | Local(todo: set<Peer>, sent: nat)                   // offering to the local snapshot
    | Locating                                            // about to look the routes up
    | Publishing(left: set<NodeId>, targets: set<NodeId>) // one envelope per remote node
    | Done(result: nat)

  datatype Call = Call(origin: NodeId, user: UserId, frame: Frame, clustered: bool, stage: Stage)

  /** A received envelope being offered to the receiver's local snapshot. */
  datatype Receipt = Receipt(message: Message, todo: set<Peer>)

  datatype State = State(
    calls: map<nat, Call>,
    published: multiset<Message>,
    flight: multiset<Message>,
    receipts: map<nat, Receipt>,
    delivered: multiset<(nat, Peer)>)

  datatype Event =
    | Send(c: nat, origin: NodeId, user: UserId, frame: Frame, clustered: bool, snapshot: set<Peer>)
    | Offer(c: nat, p: Peer, took: bool)
    | EndLocal(c: nat)
    | Find(c: nat, routes: set<Route>)
    | Post(c: nat, to: NodeId)
    | EndPublishing(c: nat)
    | Receive(r: nat, message: Message, snapshot: set<Peer>)
    | Lose(message: Message)
    | HandOver(r: nat, p: Peer, took: bool)

  const START := State(map[], multiset{}, multiset{}, map[], multiset{})

  predicate AllOn(peers: set<Peer>, node: NodeId) {
    forall p :: p in peers ==> p.node == node
  }

  predicate Enabled(st: State, e: Event) {
    match e
    case Send(c, origin, _, _, _, snapshot) => c !in st.calls && AllOn(snapshot, origin)
    case Offer(c, p, _) => c in st.calls && st.calls[c].stage.Local? && p in st.calls[c].stage.todo
    case EndLocal(c) => c in st.calls && st.calls[c].stage.Local? && st.calls[c].stage.todo == {}
    case Find(c, _) => c in st.calls && st.calls[c].stage.Locating?
    case Post(c, to) => c in st.calls && st.calls[c].stage.Publishing? && to in st.calls[c].stage.left
    case EndPublishing(c) => c in st.calls && st.calls[c].stage.Publishing? && st.calls[c].stage.left == {}
    case Receive(r, message, snapshot) =>
      r !in st.receipts && message in st.flight && AllOn(snapshot, message.to)
    case Lose(message) => message in st.flight
    case HandOver(r, p, _) => r in st.receipts && p in st.receipts[r].todo
  }

  function Staged(st: State, c: nat, stage: Stage): State
    requires c in st.calls
  {
    st.(calls := st.calls[c := st.calls[c].(stage := stage)])
  }

  function Delivered(st: State, c: nat, p: Peer, took: bool): multiset<(nat, Peer)> {
    if took then st.delivered + multiset{(c, p)} else st.delivered
  }

  function MessageOf(st: State, c: nat, to: NodeId): Message
    requires c in st.calls
  {
    Message(c, to, Wrap(st.calls[c].user, st.calls[c].frame))
  }

  function Apply(st: State, e: Event): State
    requires Enabled(st, e)
  {
    match e
    case Send(c, origin, user, frame, clustered, snapshot) =>
      st.(calls := st.calls[c := Call(origin, user, frame, clustered, Local(snapshot, 0))])
    case Offer(c, p, took) =>
      var stage := st.calls[c].stage;
      Staged(st, c, Local(stage.todo - {p}, stage.sent + if took then 1 else 0))
        .(delivered := Delivered(st, c, p, took))
    case EndLocal(c) =>
      var sent := st.calls[c].stage.sent;
      Staged(st, c, if sent > 0 || !st.calls[c].clustered then Done(sent) else Locating)
    case Find(c, routes) =>
      var remote := Manager.RemoteNodes(routes, st.calls[c].origin);
      Staged(st, c, Publishing(remote, remote))
    case Post(c, to) =>
      var message := MessageOf(st, c, to);
      Staged(st, c, st.calls[c].stage.(left := st.calls[c].stage.left - {to}))
        .(published := st.published + multiset{message}, flight := st.flight + multiset{message})
    case EndPublishing(c) => Staged(st, c, Done(|st.calls[c].stage.targets|))
    case Receive(r, message, snapshot) =>
      st.(receipts := st.receipts[r := Receipt(message, snapshot)], flight := st.flight - multiset{message})
    case Lose(message) => st.(flight := st.flight - multiset{message})
    case HandOver(r, p, took) =>
      var receipt := st.receipts[r];
      st.(receipts := st.receipts[r := receipt.(todo := receipt.todo - {p})],
          delivered := Delivered(st, receipt.message.call, p, took))
  }

  ghost predicate IsRun(states: seq<State>, events: seq<Event>) {
    && |states| == |events| + 1
    && states[0] == START
    && forall i :: 0 <= i < |events| ==>
         Enabled(states[i], events[i]) && states[i + 1] == Apply(states[i], events[i])
  }

  // ---------------------------------------------------------------- invariant

  /** Published messages carry their call's frame, to another node, once per node. */
  ghost predicate MessagesSound(st: State) {
    && (forall m :: m in st.published ==>
          m.call in st.calls && m.to != st.calls[m.call].origin && m == MessageOf(st, m.call, m.to))
    && (forall m :: st.published[m] <= 1)
  }

  /** A published message is in flight, received or lost, and received at most once. */
  ghost predicate ReceiptsSound(st: State) {
    FlightSound(st) && ReceiptsFiled(st) && ReceiptsDiffer(st)
  }

  ghost predicate FlightSound(st: State) {
    forall m :: st.flight[m] <= st.published[m]
  }

  ghost predicate ReceiptsFiled(st: State) {
    forall r :: r in st.receipts ==>
      && st.receipts[r].message in st.published && st.receipts[r].message !in st.flight
      && AllOn(st.receipts[r].todo, st.receipts[r].message.to)
  }

  ghost predicate ReceiptsDiffer(st: State) {
    forall q, r :: q in st.receipts && r in st.receipts && st.receipts[q].message == st.receipts[r].message ==> q == r
  }

  /** What a call has published, and to whom it has delivered locally, at each stage. */
  ghost predicate CallSound(st: State, c: nat)
    requires c in st.calls
  {
    var call := st.calls[c];
    match call.stage
    case Local(todo, sent) =>
      && AllOn(todo, call.origin)
      && (forall m :: m in st.published ==> m.call != c)
      && (forall p :: (c, p) in st.delivered ==> sent > 0 && p !in todo)
    case Locating =>
      && (forall m :: m in st.published ==> m.call != c)
      && (forall p :: (c, p) !in st.delivered)
    case Publishing(left, targets) =>
      && left <= targets && call.origin !in targets
      && (forall m :: m in st.published && m.call == c ==> m.to in targets - left)
      && (forall p :: (c, p) in st.delivered ==> p.node != call.origin)
    case Done(result) => true
  }

  /** The receipt through which a remote delivery was made. */
  predicate Through(st: State, r: nat, c: nat, p: Peer) {
    && r in st.receipts
    && st.receipts[r].message.call == c && st.receipts[r].message.to == p.node && p !in st.receipts[r].todo
  }

  ghost predicate DeliveredOnce(st: State) {
    && (forall d :: st.delivered[d] <= 1)
    && (forall c, p :: (c, p) in st.delivered ==> c in st.calls)
  }

  /** A delivery off the origin was made through the receipt on its node. */
  ghost predicate RemoteThroughReceipt(st: State) {
    forall c, p :: (c, p) in st.delivered && c in st.calls && p.node != st.calls[c].origin ==>
      exists r :: Through(st, r, c, p)
  }

  /** A call that delivered on its origin publishes nothing. */
  ghost predicate LocalExcludesRemote(st: State) {
    forall c, p, m :: (c, p) in st.delivered && c in st.calls && p.node == st.calls[c].origin && m in st.published ==>
      m.call != c
  }

  ghost predicate DeliveriesSound(st: State) {
    DeliveredOnce(st) && RemoteThroughReceipt(st) && LocalExcludesRemote(st)
  }

  ghost predicate Inv(st: State) {
    && MessagesSound(st) && ReceiptsSound(st) && DeliveriesSound(st)
    && forall c :: c in st.calls ==> CallSound(st, c)
  }

  /** The message a call is about to publish has not been published. */
  lemma PostIsFirst(st: State, c: nat, to: NodeId)
    requires Enabled(st, Post(c, to)) && CallSound(st, c)
    ensures MessageOf(st, c, to) !in st.published && to != st.calls[c].origin
  {
  }

  lemma MessagesSoundPost(st: State, c: nat, to: NodeId)
    requires MessagesSound(st) && Enabled(st, Post(c, to)) && CallSound(st, c)
    ensures MessagesSound(Apply(st, Post(c, to)))
  {
    PostIsFirst(st, c, to);
  }

  lemma MessagesSoundKept(st: State, e: Event)
    requires MessagesSound(st) && Enabled(st, e)
    requires e.Post? ==> CallSound(st, e.c)
    ensures MessagesSound(Apply(st, e))
  {
    if e.Post? {
      MessagesSoundPost(st, e.c, e.to);
    } else {
      assert Apply(st, e).published == st.published;
    }
  }

  lemma ReceiptsSoundPost(st: State, c: nat, to: NodeId)
    requires ReceiptsSound(st) && Enabled(st, Post(c, to)) && CallSound(st, c)
    ensures ReceiptsSound(Apply(st, Post(c, to)))
  {
    PostIsFirst(st, c, to);
  }

  /** A message in flight has no receipt, and none of it is in flight once it is received. */
  lemma ReceivedOnce(st: State, r: nat, message: Message, snapshot: set<Peer>)
    requires MessagesSound(st) && FlightSound(st) && ReceiptsFiled(st) && Enabled(st, Receive(r, message, snapshot))
    ensures message in st.published && message !in Apply(st, Receive(r, message, snapshot)).flight
    ensures forall q :: q in st.receipts ==> st.receipts[q].message != message
  {
    assert st.flight[message] <= st.published[message] <= 1;
  }

  lemma FlightSoundReceive(st: State, r: nat, message: Message, snapshot: set<Peer>)
    requires FlightSound(st) && Enabled(st, Receive(r, message, snapshot))
    ensures FlightSound(Apply(st, Receive(r, message, snapshot)))
  {
  }

  lemma ReceiptsFiledReceive(st: State, r: nat, message: Message, snapshot: set<Peer>)
    requires MessagesSound(st) && FlightSound(st) && ReceiptsFiled(st) && Enabled(st, Receive(r, message, snapshot))
    ensures ReceiptsFiled(Apply(st, Receive(r, message, snapshot)))
  {
    var st' := Apply(st, Receive(r, message, snapshot));
    ReceivedOnce(st, r, message, snapshot);
    forall q | q in st'.receipts && q != r
      ensures st'.receipts[q] == st.receipts[q] && st.receipts[q].message !in st'.flight
    {
      assert st.receipts[q].message !in st.flight;
    }
  }

  lemma ReceiptsSoundReceive(st: State, r: nat, message: Message, snapshot: set<Peer>)
    requires MessagesSound(st) && ReceiptsSound(st) && Enabled(st, Receive(r, message, snapshot))
    ensures ReceiptsSound(Apply(st, Receive(r, message, snapshot)))
  {
    FlightSoundReceive(st, r, message, snapshot);
    ReceiptsFiledReceive(st, r, message, snapshot);
    ReceivedOnce(st, r, message, snapshot);
  }

  lemma ReceiptsSoundKept(st: State, e: Event)
    requires MessagesSound(st) && ReceiptsSound(st) && Enabled(st, e)
    requires e.Post? ==> CallSound(st, e.c)
    ensures ReceiptsSound(Apply(st, e))
  {
    match e
    case Post(c, to) => ReceiptsSoundPost(st, c, to);
    case Receive(r, message, snapshot) => ReceiptsSoundReceive(st, r, message, snapshot);
    case Lose(message) => ReceiptsSoundLose(st, message);
    case HandOver(r, p, took) => ReceiptsSoundHandOver(st, r, p, took);
    case _ =>
      assert Apply(st, e).published == st.published && Apply(st, e).flight == st.flight;
  }

  lemma ReceiptsSoundLose(st: State, message: Message)
    requires ReceiptsSound(st) && Enabled(st, Lose(message))
    ensures ReceiptsSound(Apply(st, Lose(message)))
  {
  }

  lemma ReceiptsSoundHandOver(st: State, r: nat, p: Peer, took: bool)
    requires ReceiptsSound(st) && Enabled(st, HandOver(r, p, took))
    ensures ReceiptsSound(Apply(st, HandOver(r, p, took)))
  {
  }

  /** The peer handed over to has not had this call's frame before. */
  lemma HandOverIsFirst(st: State, r: nat, p: Peer)
    requires MessagesSound(st) && ReceiptsSound(st) && DeliveriesSound(st)
    requires r in st.receipts && p in st.receipts[r].todo
    ensures (st.receipts[r].message.call, p) !in st.delivered
    ensures p.node != st.calls[st.receipts[r].message.call].origin
  {
    var m := st.receipts[r].message;
    assert m in st.published && p.node == m.to;
    forall q
      ensures !Through(st, q, m.call, p)
    {
      if q in st.receipts && st.receipts[q].message.call == m.call && st.receipts[q].message.to == p.node {
        assert st.receipts[q].message == MessageOf(st, m.call, p.node) == m;
      }
    }
  }

  lemma DeliveredOnceKept(st: State, e: Event)
    requires DeliveredOnce(st) && Enabled(st, e)
    requires e.Offer? ==> (e.c, e.p) !in st.delivered
    requires e.HandOver? ==> (st.receipts[e.r].message.call, e.p) !in st.delivered
    requires e.HandOver? ==> st.receipts[e.r].message.call in st.calls
    ensures DeliveredOnce(Apply(st, e))
  {
  }

  lemma ThroughStays(st: State, e: Event, r: nat, c: nat, p: Peer)
    requires Enabled(st, e) && Through(st, r, c, p)
    ensures Through(Apply(st, e), r, c, p)
  {
  }

  /** A remote delivery has its receipt, old or new. */
  lemma StillThrough(st: State, e: Event, c: nat, p: Peer)
    requires RemoteThroughReceipt(st) && Enabled(st, e) && c in st.calls && p.node != st.calls[c].origin
    requires (c, p) in st.delivered || (e.HandOver? && c == st.receipts[e.r].message.call && p == e.p)
    requires e.HandOver? ==> e.p.node == st.receipts[e.r].message.to
    ensures exists r :: Through(Apply(st, e), r, c, p)
  {
    if (c, p) in st.delivered {
      var r :| Through(st, r, c, p);
      ThroughStays(st, e, r, c, p);
    } else {
      assert Through(Apply(st, e), e.r, c, p);
    }
  }

  predicate SameCall(call: Call, later: Call) {
    later == call.(stage := later.stage)
  }

  lemma CallsStay(st: State, e: Event, c: nat)
    requires Enabled(st, e) && c in st.calls
    ensures c in Apply(st, e).calls && SameCall(st.calls[c], Apply(st, e).calls[c])
  {
  }

  lemma RemoteThroughReceiptKept(st: State, e: Event)
    requires RemoteThroughReceipt(st) && DeliveredOnce(st) && ReceiptsSound(st) && Enabled(st, e)
    requires e.Offer? ==> e.p.node == st.calls[e.c].origin
    requires e.HandOver? ==> st.receipts[e.r].message.call in st.calls
    ensures RemoteThroughReceipt(Apply(st, e))
  {
    var st' := Apply(st, e);
    forall c, p | (c, p) in st'.delivered && c in st'.calls && p.node != st'.calls[c].origin
      ensures exists r :: Through(st', r, c, p)
    {
      NewlyDelivered(st, e, c, p);
      CallsStay(st, e, c);
      StillThrough(st, e, c, p);
    }
  }

  /** A call that delivers locally has not published, and one that publishes has not delivered locally. */
  lemma StillExcludes(st: State, e: Event, c: nat, p: Peer, m: Message)
    requires LocalExcludesRemote(st) && MessagesSound(st) && Enabled(st, e) && c in st.calls
    requires p.node == st.calls[c].origin
    requires e.Offer? || e.Post? ==> CallSound(st, e.c)
    requires (c, p) in st.delivered || (e.Offer? && c == e.c && p == e.p)
    requires m in st.published || (e.Post? && m == MessageOf(st, e.c, e.to))
    ensures m.call != c
  {
  }

  lemma LocalExcludesRemoteKept(st: State, e: Event)
    requires LocalExcludesRemote(st) && MessagesSound(st) && DeliveredOnce(st) && Enabled(st, e)
    requires e.Offer? || e.Post? ==> CallSound(st, e.c)
    requires e.HandOver? ==> st.receipts[e.r].message.call in st.calls &&
                             e.p.node != st.calls[st.receipts[e.r].message.call].origin
    ensures LocalExcludesRemote(Apply(st, e))
  {
    var st' := Apply(st, e);
    forall c, p, m | (c, p) in st'.delivered && c in st'.calls && p.node == st'.calls[c].origin && m in st'.published
      ensures m.call != c
    {
      NewlyDelivered(st, e, c, p);
      NewlyPublished(st, e, m);
      CallsStay(st, e, c);
      StillExcludes(st, e, c, p, m);
    }
  }

  /** Deliveries come from offers and hand-overs only. */
  lemma NewlyDelivered(st: State, e: Event, c: nat, p: Peer)
    requires Enabled(st, e) && (c, p) in Apply(st, e).delivered
    ensures (c, p) in st.delivered || (e.Offer? && c == e.c && p == e.p) ||
            (e.HandOver? && c == st.receipts[e.r].message.call && p == e.p)
  {
  }

  /** Only a call's own publishing step publishes; receiving and delivering never do. */
  lemma NewlyPublished(st: State, e: Event, m: Message)
    requires Enabled(st, e) && m in Apply(st, e).published
    ensures m in st.published || (e.Post? && m == MessageOf(st, e.c, e.to))
  {
  }

  lemma DeliveriesSoundKept(st: State, e: Event)
    requires Inv(st) && Enabled(st, e)
    ensures DeliveriesSound(Apply(st, e))
  {
    if e.HandOver? {
      HandOverIsFirst(st, e.r, e.p);
      assert st.receipts[e.r].message in st.published;
    } else if e.Offer? || e.Post? {
      assert CallSound(st, e.c);
    }
    DeliveredOnceKept(st, e);
    RemoteThroughReceiptKept(st, e);
    LocalExcludesRemoteKept(st, e);
  }

  lemma CallSoundKept(st: State, e: Event, c: nat)
    requires Inv(st) && Enabled(st, e) && c in Apply(st, e).calls
    ensures CallSound(Apply(st, e), c)
  {
    var st' := Apply(st, e);
    if c !in st.calls {
      assert e.Send? && c == e.c;
    } else {
      assert CallSound(st, c);
      match e
      case HandOver(r, p, _) => HandOverKeepsCall(st, e, c);
      case Post(d, to) => PostKeepsCall(st, d, to, c);
      case _ => CallStepSound(st, e, c);
    }
  }

  lemma HandOverKeepsCall(st: State, e: Event, c: nat)
    requires MessagesSound(st) && ReceiptsSound(st) && DeliveriesSound(st) && Enabled(st, e) && e.HandOver?
    requires c in st.calls && CallSound(st, c)
    ensures CallSound(Apply(st, e), c)
  {
    HandOverIsFirst(st, e.r, e.p);
    var m := st.receipts[e.r].message;
    assert m in st.published && Apply(st, e).published == st.published;
    forall p | (c, p) in Apply(st, e).delivered
      ensures (c, p) in st.delivered || (m.call == c && p == e.p)
    {
      NewlyDelivered(st, e, c, p);
    }
  }

  lemma PostKeepsCall(st: State, d: nat, to: NodeId, c: nat)
    requires Enabled(st, Post(d, to)) && c in st.calls && CallSound(st, c) && CallSound(st, d)
    ensures CallSound(Apply(st, Post(d, to)), c)
  {
  }

  lemma CallStepSound(st: State, e: Event, c: nat)
    requires Enabled(st, e) && c in st.calls && CallSound(st, c)
    requires !e.HandOver? && !e.Post?
    ensures CallSound(Apply(st, e), c)
  {
  }

  lemma {:induction false} InvHolds(states: seq<State>, events: seq<Event>, i: nat)
    requires IsRun(states, events) && i < |states|
    ensures Inv(states[i])
  {
    if i > 0 {
      var st, e := states[i - 1], events[i - 1];
      InvHolds(states, events, i - 1);
      InvKept(st, e);
    }
  }

  lemma InvKept(st: State, e: Event)
    requires Inv(st) && Enabled(st, e)
    ensures Inv(Apply(st, e))
  {
    if e.Post? {
      assert CallSound(st, e.c);
    }
    MessagesSoundKept(st, e);
    ReceiptsSoundKept(st, e);
    DeliveriesSoundKept(st, e);
    forall c | c in Apply(st, e).calls
      ensures CallSound(Apply(st, e), c)
    {
      CallSoundKept(st, e, c);
    }
  }

  // ---------------------------------------------------------------- the theorems

  /** One send reaches each session at most once, and never both a local and a remote one. */
  lemma AtMostOnce(states: seq<State>, events: seq<Event>, i: nat, c: nat, p: Peer, q: Peer)
    requires IsRun(states, events) && i < |states|
    ensures states[i].delivered[(c, p)] <= 1
    ensures (c, p) in states[i].delivered && (c, q) in states[i].delivered ==>
              c in states[i].calls &&
              (p.node == states[i].calls[c].origin <==> q.node == states[i].calls[c].origin)
  {
    var st := states[i];
    InvHolds(states, events, i);
    if (c, p) in st.delivered && (c, q) in st.delivered {
      SideShown(st, c, p);
      SideShown(st, c, q);
    }
  }

  /** On which side a delivery was made shows in whether its call has published. */
  lemma SideShown(st: State, c: nat, p: Peer)
    requires Inv(st) && (c, p) in st.delivered
    ensures p.node == st.calls[c].origin <==> forall m :: m in st.published ==> m.call != c
  {
    if p.node != st.calls[c].origin {
      var r :| Through(st, r, c, p);
      assert st.receipts[r].message in st.published;
    }
  }

  /** Each published envelope was put out by its own send's publishing step, goes to another node,
      unpacks to the sent frame for the sent user, and is the only one of its send to that node;
      no envelope is received twice. */
  lemma EnvelopesAreSound(states: seq<State>, events: seq<Event>, i: nat, m: Message, n: Message)
    requires IsRun(states, events) && i < |states|
    requires m in states[i].published && n in states[i].published
    ensures m.call in states[i].calls && m.to != states[i].calls[m.call].origin
    ensures Unwrap(m.envelope) == states[i].calls[m.call].frame && m.envelope.user == states[i].calls[m.call].user
    ensures exists k :: PostedAt(states, events, i, m, k)
    ensures states[i].published[m] == 1
    ensures m.call == n.call && m.to == n.to ==> m == n
    ensures forall q, r :: q in states[i].receipts && r in states[i].receipts && q != r ==>
              states[i].receipts[q].message != states[i].receipts[r].message
  {
    InvHolds(states, events, i);
    var k := PostedByItsSend(states, events, i, m);
  }

  /** Step `k` published `m`, as the publishing step of the send that `m` belongs to. */
  ghost predicate PostedAt(states: seq<State>, events: seq<Event>, i: nat, m: Message, k: nat)
    requires IsRun(states, events) && i < |states|
  {
    k < i && events[k] == Post(m.call, m.to) && m !in states[k].published && m in states[k + 1].published
  }

  lemma {:induction false} PostedByItsSend(states: seq<State>, events: seq<Event>, i: nat, m: Message) returns (k: nat)
    requires IsRun(states, events) && i < |states| && m in states[i].published
    ensures PostedAt(states, events, i, m, k)
  {
    if m in states[i - 1].published {
      k := PostedByItsSend(states, events, i - 1, m);
    } else {
      NewlyPublished(states[i - 1], events[i - 1], m);
      k := i - 1;
    }
  }

  /** The envelopes one send has published. */
  function PostedBy(st: State, c: nat): set<Message> {
    set m | m in st.published && m.call == c
  }

  /** Every lookup answers with routes to nodes of the cluster. */
  predicate RoutesWithin(e: Event, nodes: set<NodeId>) {
    e.Find? ==> forall r :: r in e.routes ==> r.node in nodes
  }

  ghost predicate PostsWithin(st: State, nodes: set<NodeId>) {
    && (forall m :: m in st.published ==> m.to in nodes)
    && (forall c :: c in st.calls && st.calls[c].stage.Publishing? ==> st.calls[c].stage.targets <= nodes)
  }

  lemma PostsWithinKept(st: State, e: Event, nodes: set<NodeId>)
    requires PostsWithin(st, nodes) && Enabled(st, e) && RoutesWithin(e, nodes)
    requires e.Post? ==> CallSound(st, e.c)
    ensures PostsWithin(Apply(st, e), nodes)
  {
  }

  lemma {:induction false} PostsWithinHolds(states: seq<State>, events: seq<Event>, i: nat, nodes: set<NodeId>)
    requires IsRun(states, events) && i < |states|
    requires forall k :: 0 <= k < i ==> RoutesWithin(events[k], nodes)
    ensures PostsWithin(states[i], nodes)
  {
    if i > 0 {
      PostsWithinHolds(states, events, i - 1, nodes);
      InvHolds(states, events, i - 1);
      if events[i - 1].Post? {
        assert CallSound(states[i - 1], events[i - 1].c);
      }
      PostsWithinKept(states[i - 1], events[i - 1], nodes);
    }
  }

  lemma {:induction false} OnePerNode(messages: set<Message>, nodes: set<NodeId>)
    requires forall m :: m in messages ==> m.to in nodes
    requires forall m, n :: m in messages && n in messages && m.to == n.to ==> m == n
    ensures |messages| <= |nodes|
    decreases |messages|
  {
    if messages != {} {
      var m :| m in messages;
      OnePerNode(messages - {m}, nodes - {m.to});
    }
  }

  /** One send publishes at most one envelope per other node of the cluster. */
  lemma MessagesAreBounded(states: seq<State>, events: seq<Event>, i: nat, nodes: set<NodeId>, c: nat)
    requires IsRun(states, events) && i < |states| && c in states[i].calls
    requires forall k :: 0 <= k < i ==> RoutesWithin(events[k], nodes)
    ensures |PostedBy(states[i], c)| <= |nodes - {states[i].calls[c].origin}|
  {
    InvHolds(states, events, i);
    PostsWithinHolds(states, events, i, nodes);
    OnePerNode(PostedBy(states[i], c), nodes - {states[i].calls[c].origin});
  }

  // ---------------------------------------------------------------- results are exact

  function MessagesTo(c: nat, envelope: Envelope, nodes: set<NodeId>): set<Message> {
    set n | n in nodes :: Message(c, n, envelope)
  }

  function EnvelopeOf(call: Call): Envelope {
    Envelope(call.user, call.frame.kind, call.frame.payload)
  }

  /** The owners of the routes, other than the node itself. */
  function Owners(routes: set<Route>, origin: NodeId): (owners: set<NodeId>)
    ensures forall n :: n in owners <==> n != origin && exists r :: r in routes && r.node == n
  {
    set r | r in routes && r.node != origin :: r.node
  }

  /** A call that has looked up these routes has published to all their owners but those left. */
  ghost predicate Covering(st: State, c: nat, routes: set<Route>) {
    && c in st.calls
    && var call := st.calls[c];
       var owners := Owners(routes, call.origin);
       match call.stage
       case Local(_, _) => false
       case Locating => false
       case Publishing(left, targets) =>
         targets == owners && left <= targets && PostedBy(st, c) == MessagesTo(c, EnvelopeOf(call), targets - left)
       case Done(result) => result == |owners| && PostedBy(st, c) == MessagesTo(c, EnvelopeOf(call), owners)
  }

  lemma FindCovers(st: State, c: nat, routes: set<Route>)
    requires Enabled(st, Find(c, routes)) && CallSound(st, c)
    ensures Covering(Apply(st, Find(c, routes)), c, routes)
  {
    var st', remote := Apply(st, Find(c, routes)), Manager.RemoteNodes(routes, st.calls[c].origin);
    assert remote == Owners(routes, st.calls[c].origin) && remote - remote == {};
    assert PostedBy(st', c) == {} == MessagesTo(c, EnvelopeOf(st.calls[c]), {});
  }

  /** Other events leave alone what a call has published. */
  lemma PostedElsewhere(st: State, e: Event, c: nat)
    requires Enabled(st, e) && !(e.Post? && e.c == c)
    ensures PostedBy(Apply(st, e), c) == PostedBy(st, c)
  {
    forall m
      ensures m in PostedBy(Apply(st, e), c) <==> m in PostedBy(st, c)
    {
      if m in Apply(st, e).published {
        NewlyPublished(st, e, m);
      }
      assert m in st.published ==> m in Apply(st, e).published;
    }
  }

  lemma PostCovers(st: State, c: nat, to: NodeId, routes: set<Route>)
    requires Enabled(st, Post(c, to)) && Covering(st, c, routes)
    ensures Covering(Apply(st, Post(c, to)), c, routes)
  {
    var left, targets, envelope := st.calls[c].stage.left, st.calls[c].stage.targets, EnvelopeOf(st.calls[c]);
    assert targets - (left - {to}) == (targets - left) + {to};
    assert MessagesTo(c, envelope, (targets - left) + {to}) == MessagesTo(c, envelope, targets - left) + {Message(c, to, envelope)};
    assert PostedBy(Apply(st, Post(c, to)), c) == PostedBy(st, c) + {Message(c, to, envelope)};
  }

  lemma CoveringKept(st: State, e: Event, c: nat, routes: set<Route>)
    requires Enabled(st, e) && Covering(st, c, routes)
    ensures Covering(Apply(st, e), c, routes)
  {
    if e.Post? && e.c == c {
      PostCovers(st, c, e.to, routes);
    } else {
      PostedElsewhere(st, e, c);
      CallsStay(st, e, c);
      if e.EndPublishing? && e.c == c {
        assert st.calls[c].stage.targets - {} == st.calls[c].stage.targets;
      }
    }
  }

  lemma {:induction false} CoveringHolds(states: seq<State>, events: seq<Event>, k: nat, i: nat, c: nat, routes: set<Route>)
    requires IsRun(states, events) && k < i < |states| && events[k] == Find(c, routes)
    ensures Covering(states[i], c, routes)
  {
    if i == k + 1 {
      InvHolds(states, events, k);
      assert CallSound(states[k], c);
      FindCovers(states[k], c, routes);
    } else {
      CoveringHolds(states, events, k, i - 1, c, routes);
      CoveringKept(states[i - 1], events[i - 1], c, routes);
    }
  }

  lemma {:induction false} MessagesCount(c: nat, envelope: Envelope, nodes: set<NodeId>)
    ensures |MessagesTo(c, envelope, nodes)| == |nodes|
    decreases |nodes|
  {
    if nodes != {} {
      var n :| n in nodes;
      MessagesCount(c, envelope, nodes - {n});
      assert MessagesTo(c, envelope, nodes) == MessagesTo(c, envelope, nodes - {n}) + {Message(c, n, envelope)};
    }
  }

  /** A send that looked the user up and is done has published its frame to exactly the owners of
      the routes found, its own node excepted, and its result is the number of envelopes it has
      published. */
  lemma LookupIsFollowed(states: seq<State>, events: seq<Event>, k: nat, i: nat, c: nat, routes: set<Route>)
    requires IsRun(states, events) && k < i < |states| && events[k] == Find(c, routes)
    requires c in states[i].calls && states[i].calls[c].stage.Done?
    ensures var st, call := states[i], states[i].calls[c];
            && (forall n :: Message(c, n, Envelope(call.user, call.frame.kind, call.frame.payload)) in st.published <==>
                            n != call.origin && exists r :: r in routes && r.node == n)
            && (forall m :: m in st.published && m.call == c ==>
                            m.envelope == Envelope(call.user, call.frame.kind, call.frame.payload))
            && call.stage.result == |set m | m in st.published && m.call == c|
  {
    var st, call := states[i], states[i].calls[c];
    var owners := Owners(routes, call.origin);
    CoveringHolds(states, events, k, i, c, routes);
    MessagesCount(c, EnvelopeOf(call), owners);
    forall n
      ensures Message(c, n, EnvelopeOf(call)) in st.published <==> n in owners
    {
      assert Message(c, n, EnvelopeOf(call)) in st.published <==> Message(c, n, EnvelopeOf(call)) in PostedBy(st, c);
    }
    forall m | m in st.published && m.call == c
      ensures m.envelope == EnvelopeOf(call)
    {
      assert m in PostedBy(st, c);
    }
  }

  // ---------------------------------------------------------------- local results

  /** The deliveries of one send. */
  function DeliveriesOf(st: State, c: nat): set<(nat, Peer)> {
    set d | d in st.delivered && d.0 == c
  }

  /** A call that has not looked anything up has counted its deliveries and published nothing. */
  ghost predicate Counting(st: State, c: nat)
    requires c in st.calls
  {
    && PostedBy(st, c) == {}
    && match st.calls[c].stage
       case Local(_, sent) => sent == |DeliveriesOf(st, c)|
       case Locating => DeliveriesOf(st, c) == {}
       case Publishing(_, _) => false
       case Done(result) => result == |DeliveriesOf(st, c)| && (result > 0 || !st.calls[c].clustered)
  }

  /** Without envelopes of its own out, a call gets deliveries by its own offers only. */
  lemma DeliveriesElsewhere(st: State, e: Event, c: nat)
    requires ReceiptsFiled(st) && Enabled(st, e) && PostedBy(st, c) == {} && !(e.Offer? && e.c == c)
    ensures DeliveriesOf(Apply(st, e), c) == DeliveriesOf(st, c)
  {
    forall d
      ensures d in DeliveriesOf(Apply(st, e), c) <==> d in DeliveriesOf(st, c)
    {
      if d in DeliveriesOf(Apply(st, e), c) {
        NewlyDelivered(st, e, d.0, d.1);
        assert e.HandOver? ==> st.receipts[e.r].message !in PostedBy(st, c);
      }
      assert d in st.delivered ==> d in Apply(st, e).delivered;
    }
  }

  lemma OfferCounts(st: State, c: nat, p: Peer, took: bool)
    requires Enabled(st, Offer(c, p, took)) && CallSound(st, c) && Counting(st, c)
    ensures Counting(Apply(st, Offer(c, p, took)), c)
  {
    var st' := Apply(st, Offer(c, p, took));
    PostedElsewhere(st, Offer(c, p, took), c);
    assert (c, p) !in st.delivered;
    assert DeliveriesOf(st', c) == if took then DeliveriesOf(st, c) + {(c, p)} else DeliveriesOf(st, c);
  }

  lemma EndCounts(st: State, c: nat)
    requires Enabled(st, EndLocal(c)) && CallSound(st, c) && Counting(st, c)
    ensures Counting(Apply(st, EndLocal(c)), c)
  {
    var st' := Apply(st, EndLocal(c));
    PostedElsewhere(st, EndLocal(c), c);
    assert DeliveriesOf(st', c) == DeliveriesOf(st, c);
  }

  lemma CountingKept(st: State, e: Event, c: nat)
    requires ReceiptsFiled(st) && Enabled(st, e) && c in st.calls && CallSound(st, c) && Counting(st, c)
    requires !(e.Find? && e.c == c)
    ensures c in Apply(st, e).calls && Counting(Apply(st, e), c)
  {
    if e.Offer? && e.c == c {
      OfferCounts(st, c, e.p, e.took);
    } else if e.EndLocal? && e.c == c {
      EndCounts(st, c);
    } else {
      PostedElsewhere(st, e, c);
      DeliveriesElsewhere(st, e, c);
      CallsStay(st, e, c);
      assert Apply(st, e).calls[c] == st.calls[c];
    }
  }

  lemma SendCounts(st: State, e: Event, c: nat)
    requires MessagesSound(st) && DeliveredOnce(st) && Enabled(st, e) && e.Send? && e.c == c
    ensures Counting(Apply(st, e), c)
  {
    PostedElsewhere(st, e, c);
    assert PostedBy(st, c) == {};
    forall d
      ensures d !in DeliveriesOf(Apply(st, e), c)
    {
      assert (d.0, d.1) == d;
      assert (d.0, d.1) in st.delivered ==> d.0 in st.calls;
    }
    assert DeliveriesOf(Apply(st, e), c) == {};
  }

  lemma CountingStep(st: State, e: Event, c: nat)
    requires Inv(st) && Enabled(st, e) && c in Apply(st, e).calls && !(e.Find? && e.c == c)
    requires c in st.calls ==> Counting(st, c)
    ensures Counting(Apply(st, e), c)
  {
    if c in st.calls {
      assert CallSound(st, c);
      CountingKept(st, e, c);
    } else {
      SendCounts(st, e, c);
    }
  }

  lemma {:induction false} CountingHolds(states: seq<State>, events: seq<Event>, i: nat, c: nat)
    requires IsRun(states, events) && i < |states| && c in states[i].calls
    requires forall k :: 0 <= k < i ==> !(events[k].Find? && events[k].c == c)
    ensures Counting(states[i], c)
  {
    if i > 0 {
      if c in states[i - 1].calls {
        CountingHolds(states, events, i - 1, c);
      }
      InvHolds(states, events, i - 1);
      CountingStep(states[i - 1], events[i - 1], c);
    }
  }

  /** A send that is done without a lookup has published nothing, its result is the number of
      sessions that took the frame, and it stopped because one did or because it is not clustered. */
  lemma LocalResultIsExact(states: seq<State>, events: seq<Event>, i: nat, c: nat)
    requires IsRun(states, events) && i < |states| && c in states[i].calls && states[i].calls[c].stage.Done?
    requires forall k :: 0 <= k < i ==> !(events[k].Find? && events[k].c == c)
    ensures states[i].calls[c].stage.result == |set d | d in states[i].delivered && d.0 == c|
    ensures forall m :: m in states[i].published ==> m.call != c
    ensures states[i].calls[c].stage.result > 0 || !states[i].calls[c].clustered
  {
    CountingHolds(states, events, i, c);
    assert DeliveriesOf(states[i], c) == set d | d in states[i].delivered && d.0 == c;
    forall m | m in states[i].published
      ensures m.call != c
    {
      assert m !in PostedBy(states[i], c);
    }
  }
}

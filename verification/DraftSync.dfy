/**
 * The Repeater and Intruder drafts against the server: polls, the two write queues, and every
 * message between them. Delivery order is arbitrary, requests may time out on the client and
 * still reach the server later, and the server may change at any moment.
 */
module DraftSync {
  import opened ServerHistory
  import opened ClientState

  /** What a poll carries, and what the client remembers about it. */
  datatype Ticket = Ticket(since: nat, instance: string, repeaterEpoch: nat, intruderEpoch: nat)
  {
    function Epoch(q: LaneName): nat { if q.Repeater? then repeaterEpoch else intruderEpoch }
  }

  datatype Poll = Idle | Asked(ticket: Ticket) | Full(ticket: Ticket, at: nat) | Unchanged(ticket: Ticket, at: nat)

  /** One queue's network, and the history the theorems talk about. */
  datatype Wire = Wire(
    reply: Reply,
    issued: seq<Write>,    // every write ever issued on this queue
    typedAt: seq<int>,     // the version the client showed when it was issued (-1: none yet)
    abandoned: set<nat>)   // posted, given up by the client, perhaps still on the way

  datatype Net = Net(core: Core, poll: Poll, repeater: Wire, intruder: Wire,
                     shown: int)  // version of the snapshot delivered last (-1: none)
  {
    function Wire(q: LaneName): Wire { if q.Repeater? then repeater else intruder }

    function With(q: LaneName, w: Wire): Net {
      if q.Repeater? then this.(repeater := w) else this.(intruder := w)
    }

    /** Position in `issued` of the write at the head of the queue. */
    function Head(q: LaneName): nat {
      if |core.Lane(q).queue| <= |Wire(q).issued| then |Wire(q).issued| - |core.Lane(q).queue| else 0
    }
  }

  datatype Event =
    | Issue(q: LaneName, payload: Slice, optimistic: bool)
    | Dispatch(q: LaneName)                            // the head of the chain starts to run
    | Accept(q: LaneName, v: Version)                  // the server performs the write in flight
    | Refuse(q: LaneName)                              // or turns it down
    | Settle(q: LaneName)                              // its answer reaches the client
    | TimeOut(q: LaneName)                             // the client gives up on it
    | AcceptLate(q: LaneName, n: nat, v: Version)      // the server performs an abandoned write
    | SendPoll | AnswerPoll | DeliverPoll | FailPoll

  /** The server's rule for writes: a stamp, when there is one, must be the current token. */
  predicate Fresh(h: seq<Version>, stamp: string)
    requires |h| > 0
  {
    stamp == "" || stamp == h[|h| - 1].gen.token
  }

  predicate Performs(h: seq<Version>, v: Version, w: Write, id: WriteId)
    requires |h| > 0
  {
    var u := h[|h| - 1];
    && Fresh(h, w.stamp) && Follows(h, v) && v.gen == u.gen && v.textLog == u.textLog
    && id !in u.accepted && v.accepted == u.accepted + {id}
  }

  predicate Enabled(h: seq<Version>, net: Net, e: Event)
    requires |h| > 0
  {
    match e
    case Issue(q, p, o) => true
    case Dispatch(q) => net.core.Lane(q).queue != [] && !net.core.Lane(q).posted
    case Accept(q, v) =>
      && net.core.Lane(q).queue != [] && net.core.Lane(q).posted && net.Wire(q).reply.NoReply?
      && Performs(h, v, net.core.Lane(q).queue[0], WriteId(q, net.Head(q)))
    case Refuse(q) => net.core.Lane(q).queue != [] && net.core.Lane(q).posted && net.Wire(q).reply.NoReply?
    case Settle(q) => net.core.Lane(q).queue != [] && net.Wire(q).reply.Replied?
    case TimeOut(q) => net.core.Lane(q).queue != [] && net.core.Lane(q).posted
    case AcceptLate(q, n, v) =>
      n in net.Wire(q).abandoned && n < |net.Wire(q).issued|
      && Performs(h, v, net.Wire(q).issued[n], WriteId(q, n))
    case SendPoll => net.poll.Idle?
    case AnswerPoll => net.poll.Asked?
    case DeliverPoll => (net.poll.Full? && net.poll.at < |h|) || net.poll.Unchanged?
    case FailPoll => !net.poll.Idle?
  }

  /** The version the server appends while handling `e`. */
  function Appended(e: Event): seq<Version> {
    match e
    case Accept(_, v) => [v]
    case AcceptLate(_, _, v) => [v]
    case _ => []
  }

  /** 304 is given only for a nonzero `since` that is the current seq of the same instance. */
  function Answer(h: seq<Version>, t: Ticket): Poll
    requires |h| > 0
  {
    var u := h[|h| - 1];
    if t.since != 0 && t.since == u.seqNo && t.instance == u.instance
    then Unchanged(t, |h| - 1) else Full(t, |h| - 1)
  }

  function Step(h: seq<Version>, net: Net, e: Event): Net
    requires |h| > 0 && Enabled(h, net, e)
  {
    var c := net.core;
    match e
    case Issue(q, p, o) =>
      var w := net.Wire(q);
      net.(core := IssueWrite(c, q, p, o))
        .With(q, w.(issued := w.issued + [Write(c.gen, c.token, p)], typedAt := w.typedAt + [net.shown]))
    case Dispatch(q) => net.(core := if MayPost(c, q) then PostHead(c, q) else SettleHead(c, q))
    case Accept(q, v) => net.With(q, net.Wire(q).(reply := Replied(true, |h|)))
    case Refuse(q) => net.With(q, net.Wire(q).(reply := Replied(false, |h| - 1)))
    case Settle(q) => net.(core := SettleHead(c, q)).With(q, net.Wire(q).(reply := NoReply))
    case TimeOut(q) =>
      var w := net.Wire(q);
      net.(core := SettleHead(c, q)).With(q, w.(reply := NoReply, abandoned := w.abandoned + {net.Head(q)}))
    case AcceptLate(q, n, v) => net.With(q, net.Wire(q).(abandoned := net.Wire(q).abandoned - {n}))
    case SendPoll => net.(poll := Asked(Ticket(c.seqNo, c.instance, c.repeater.epoch, c.intruder.epoch)))
    case AnswerPoll => net.(poll := Answer(h, net.poll.ticket))
    case DeliverPoll =>
      if net.poll.Full? then
        var t := net.poll.ticket;
        net.(core := AcceptPoll(c, SnapshotOf(h[net.poll.at]), t.repeaterEpoch, t.intruderEpoch),
             poll := Idle, shown := net.poll.at)
      else net.(poll := Idle)
    case FailPoll => net.(poll := Idle, core := Disconnected(c))
  }

  /** Loading the page: the first snapshot is either the server's current version or has failed. */
  function Start(h: seq<Version>, loaded: bool): Net
    requires |h| > 0
  {
    var idle := Wire(NoReply, [], [], {});
    Net(Boot(if loaded then SnapshotOf(h[|h| - 1]) else EMPTY_SNAPSHOT), Idle, idle, idle, if loaded then |h| - 1 else -1)
  }

  // ---------------------------------------------------------------- invariant

  /** The queue is the unsettled tail of what was issued, and the counters count it. */
  predicate QueueOk(h: seq<Version>, l: Lane, w: Wire, q: LaneName) {
    var head := |w.issued| - |l.queue|;
    && l.epoch == |w.issued| == |w.typedAt|
    && l.pending == |l.queue| <= |w.issued|
    && l.queue == w.issued[head..]
    && (l.queue == [] ==> !l.posted)
    && (!l.posted ==> w.reply.NoReply?)
    && (w.reply.Replied? ==>
          && w.reply.at < |h|
          && (w.reply.ok ==>
                WriteId(q, head) in h[w.reply.at].accepted && w.reply.at > 0 && WriteId(q, head) !in h[w.reply.at - 1].accepted))
    && (forall n | n in w.abandoned :: n < head)
  }

  /** Every write carries the token of the version its author was looking at. */
  predicate IssuedOk(h: seq<Version>, w: Wire, shown: int) {
    && |w.typedAt| == |w.issued|
    && -1 <= shown < |h|
    && forall n | 0 <= n < |w.issued| ::
         && -1 <= w.typedAt[n] <= shown
         && w.issued[n].gen == GenAt(h, w.typedAt[n])
         && w.issued[n].stamp == w.issued[n].gen.token
  }

  predicate Stamped(v: Version, w: Write) {
    w.stamp == "" || w.stamp == v.gen.token
  }

  /** A write first shows up as accepted in a version of the generation it is stamped with. */
  ghost predicate LandedOk(h: seq<Version>, w: Wire, q: LaneName) {
    forall i, n: nat {:trigger WriteId(q, n) in h[i].accepted} | 0 <= i < |h| && WriteId(q, n) in h[i].accepted ::
      && n < |w.issued|
      && (i == 0 || WriteId(q, n) in h[i - 1].accepted || Stamped(h[i], w.issued[n]))
  }

  ghost predicate LaneOk(h: seq<Version>, l: Lane, w: Wire, q: LaneName, shown: int) {
    QueueOk(h, l, w, q) && IssuedOk(h, w, shown) && LandedOk(h, w, q)
  }

  ghost predicate LanesOk(h: seq<Version>, net: Net) {
    && LaneOk(h, net.core.repeater, net.repeater, Repeater, net.shown)
    && LaneOk(h, net.core.intruder, net.intruder, Intruder, net.shown)
  }

  /** The draft has a write pending or is the server's slice at version v. */
  predicate InSync(v: Version, l: Lane, q: LaneName) {
    l.pending > 0 || l.draft == Shown(v, q)
  }

  predicate SeqOk(h: seq<Version>, c: Core, shown: int) {
    c.seqNo != 0 ==>
      && 0 <= shown < |h| && c.seqNo == h[shown].seqNo
      && InSync(h[shown], c.repeater, Repeater) && InSync(h[shown], c.intruder, Intruder)
  }

  /** Only polls set NL._seq, and only one poll is under way. */
  predicate PollOk(h: seq<Version>, net: Net) {
    && (!net.poll.Idle? ==>
          net.core.seqNo == 0 || (net.core.seqNo == net.poll.ticket.since && net.core.instance == net.poll.ticket.instance))
    && (net.poll.Full? ==> net.shown <= net.poll.at < |h|)
    && (net.poll.Unchanged? ==>
          && net.shown <= net.poll.at < |h|
          && net.poll.ticket.since != 0
          && h[net.poll.at].seqNo == net.poll.ticket.since && h[net.poll.at].instance == net.poll.ticket.instance)
  }

  ghost predicate Inv(h: seq<Version>, net: Net) {
    ClientOk(h, net.core, net.shown) && SeqOk(h, net.core, net.shown) && PollOk(h, net) && LanesOk(h, net)
  }

  // ---------------------------------------------------------------- preservation, one lane at a time

  lemma StartOk(h: seq<Version>, loaded: bool)
    requires Lawful(h) && h[|h| - 1].accepted == {}
    ensures Inv(h, Start(h, loaded))
  {
    forall i | 0 <= i < |h| ensures h[i].accepted == {} {
      AcceptedGrows(h, i, |h| - 1);
    }
  }

  /** Facts of LaneOk that the step lemmas need by name. */
  lemma LaneFacts(h: seq<Version>, l: Lane, w: Wire, q: LaneName, shown: int)
    requires LaneOk(h, l, w, q, shown)
    ensures |l.queue| <= |w.issued| && l.pending == |l.queue| && l.epoch == |w.issued|
    ensures -1 <= shown < |h|
    ensures w.reply.Replied? ==> l.posted && w.reply.at < |h|
    ensures l.queue != [] ==> l.queue[0] == w.issued[|w.issued| - |l.queue|]
  {
  }

  /** A new version that performs none of q's writes disturbs nothing, and nor does showing a later one. */
  lemma LaneGrows(h: seq<Version>, more: seq<Version>, l: Lane, w: Wire, q: LaneName, shown: int, shown': int, l': Lane)
    requires |h| > 0 && LaneOk(h, l, w, q, shown) && shown <= shown' < |h| && |more| <= 1
    requires forall v, n: nat | v in more :: WriteId(q, n) in v.accepted ==> WriteId(q, n) in h[|h| - 1].accepted
    requires l' == l.(draft := l'.draft)
    ensures LaneOk(h + more, l', w, q, shown')
  {
    assert LandedOk(h + more, w, q);
  }

  lemma IssueOk(h: seq<Version>, l: Lane, w: Wire, q: LaneName, shown: int, write: Write, l': Lane)
    requires LaneOk(h, l, w, q, shown) && write.gen == GenAt(h, shown) && write.stamp == write.gen.token
    requires l' == Lane(l'.draft, l.epoch + 1, l.pending + 1, l.queue + [write], l.posted)
    ensures LaneOk(h, l', w.(issued := w.issued + [write], typedAt := w.typedAt + [shown]), q, shown)
  {
  }

  /** The head leaves the queue. */
  lemma SettleOk(h: seq<Version>, l: Lane, w: Wire, q: LaneName, shown: int, abandoned: set<nat>)
    requires LaneOk(h, l, w, q, shown) && l.queue != []
    requires forall n | n in abandoned :: n in w.abandoned || n == |w.issued| - |l.queue|
    ensures LaneOk(h, l.(queue := l.queue[1..], pending := l.pending - 1, posted := false),
                   w.(reply := NoReply, abandoned := abandoned), q, shown)
  {
  }

  /** The server performs write n of queue q. */
  lemma PerformOk(h: seq<Version>, v: Version, l: Lane, w: Wire, q: LaneName, shown: int, n: nat)
    requires |h| > 0 && LaneOk(h, l, w, q, shown)
    requires n < |w.issued| && Performs(h, v, w.issued[n], WriteId(q, n))
    ensures LaneOk(h + [v], l, w, q, shown)
  {
    var g := h + [v];
    assert g[|h| - 1] == h[|h| - 1];
    assert Stamped(v, w.issued[n]);
    forall i, m: nat {:trigger WriteId(q, m) in g[i].accepted} | 0 <= i < |g| && WriteId(q, m) in g[i].accepted
      ensures m < |w.issued| && (i == 0 || WriteId(q, m) in g[i - 1].accepted || Stamped(g[i], w.issued[m]))
    {
      if i < |h| {
        assert WriteId(q, m) in h[i].accepted;
      } else if m != n {
        assert WriteId(q, m) in h[|h| - 1].accepted;
      }
    }
  }

  /** A request or its answer changes place without touching the queue. */
  lemma ReplyOk(h: seq<Version>, l: Lane, w: Wire, q: LaneName, shown: int, l': Lane, w': Wire)
    requires LaneOk(h, l, w, q, shown) && l.queue != [] && l' == l.(posted := true)
    requires w' == w.(reply := w'.reply) && (w'.reply.Replied? ==> w'.reply.at < |h|)
    requires w'.reply.Replied? && w'.reply.ok ==>
      && w'.reply.at > 0
      && WriteId(q, |w.issued| - |l.queue|) in h[w'.reply.at].accepted - h[w'.reply.at - 1].accepted
    ensures LaneOk(h, l', w', q, shown)
  {
  }

  lemma ForgetOk(h: seq<Version>, l: Lane, w: Wire, q: LaneName, shown: int, n: nat)
    requires LaneOk(h, l, w, q, shown)
    ensures LaneOk(h, l, w.(abandoned := w.abandoned - {n}), q, shown)
  {
  }

  // ---------------------------------------------------------------- preservation, the whole client

  function Other(q: LaneName): LaneName { if q.Repeater? then Intruder else Repeater }

  lemma PerformStep(h: seq<Version>, net: Net, q: LaneName, n: nat, v: Version)
    requires |h| > 0 && LanesOk(h, net)
    requires n < |net.Wire(q).issued| && Performs(h, v, net.Wire(q).issued[n], WriteId(q, n))
    ensures LanesOk(h + [v], net)
  {
    var p := Other(q);
    LaneFacts(h, net.core.Lane(p), net.Wire(p), p, net.shown);
    hide LaneOk, Follows;
    PerformOk(h, v, net.core.Lane(q), net.Wire(q), q, net.shown, n);
    LaneGrows(h, [v], net.core.Lane(p), net.Wire(p), p, net.shown, net.shown, net.core.Lane(p));
  }

  lemma IssueStep(h: seq<Version>, net: Net, e: Event)
    requires |h| > 0 && ClientOk(h, net.core, net.shown) && LanesOk(h, net) && Enabled(h, net, e) && e.Issue?
    ensures LanesOk(h, Step(h, net, e))
  {
    hide LaneOk, Performs;
    var q, c := e.q, net.core;
    IssueOk(h, c.Lane(q), net.Wire(q), q, net.shown, Write(c.gen, c.token, e.payload), Step(h, net, e).core.Lane(q));
  }

  lemma DispatchStep(h: seq<Version>, net: Net, e: Event)
    requires |h| > 0 && LanesOk(h, net) && Enabled(h, net, e) && e.Dispatch?
    ensures LanesOk(h, Step(h, net, e))
  {
    var q := e.q;
    var l, w := net.core.Lane(q), net.Wire(q);
    LaneFacts(h, l, w, q, net.shown);
    hide LaneOk, Performs;
    if MayPost(net.core, q) {
      ReplyOk(h, l, w, q, net.shown, Step(h, net, e).core.Lane(q), w);
    } else {
      SettleOk(h, l, w, q, net.shown, w.abandoned);
      assert w.(reply := NoReply, abandoned := w.abandoned) == w;
    }
  }

  lemma RefuseStep(h: seq<Version>, net: Net, e: Event)
    requires |h| > 0 && LanesOk(h, net) && Enabled(h, net, e) && e.Refuse?
    ensures LanesOk(h, Step(h, net, e))
  {
    hide LaneOk, Performs;
    ReplyOk(h, net.core.Lane(e.q), net.Wire(e.q), e.q, net.shown, net.core.Lane(e.q), Step(h, net, e).Wire(e.q));
  }

  lemma SettleStep(h: seq<Version>, net: Net, e: Event)
    requires |h| > 0 && LanesOk(h, net) && Enabled(h, net, e) && (e.Settle? || e.TimeOut?)
    ensures LanesOk(h, Step(h, net, e))
  {
    LaneFacts(h, net.core.Lane(e.q), net.Wire(e.q), e.q, net.shown);
    hide LaneOk, Performs;
    SettleOk(h, net.core.Lane(e.q), net.Wire(e.q), e.q, net.shown, Step(h, net, e).Wire(e.q).abandoned);
  }

  lemma LocalStep(h: seq<Version>, net: Net, e: Event)
    requires |h| > 0 && ClientOk(h, net.core, net.shown) && LanesOk(h, net) && Enabled(h, net, e)
    requires e.Issue? || e.Dispatch? || e.Settle? || e.TimeOut? || e.Refuse?
    ensures LanesOk(h, Step(h, net, e))
  {
    hide LanesOk, Step, Enabled, ClientOk;
    match e
    case Issue(_, _, _) => IssueStep(h, net, e);
    case Dispatch(_) => DispatchStep(h, net, e);
    case Refuse(_) => RefuseStep(h, net, e);
    case _ => SettleStep(h, net, e);
  }

  lemma AcceptStep(h: seq<Version>, net: Net, q: LaneName, v: Version)
    requires |h| > 0 && LanesOk(h, net) && Enabled(h, net, Accept(q, v))
    ensures LanesOk(h + [v], Step(h, net, Accept(q, v)))
  {
    var l, w := net.core.Lane(q), net.Wire(q);
    LaneFacts(h, l, w, q, net.shown);
    hide LaneOk, Follows;
    PerformStep(h, net, q, net.Head(q), v);
    ReplyOk(h + [v], l, w, q, net.shown, l, w.(reply := Replied(true, |h|)));
  }

  lemma AcceptLateStep(h: seq<Version>, net: Net, q: LaneName, n: nat, v: Version)
    requires |h| > 0 && LanesOk(h, net) && Enabled(h, net, AcceptLate(q, n, v))
    ensures LanesOk(h + [v], Step(h, net, AcceptLate(q, n, v)))
  {
    hide LaneOk, Performs;
    PerformStep(h, net, q, n, v);
    ForgetOk(h + [v], net.core.Lane(q), net.Wire(q), q, net.shown, n);
  }

  lemma DeliverStep(h: seq<Version>, net: Net)
    requires |h| > 0 && LanesOk(h, net) && PollOk(h, net) && Enabled(h, net, DeliverPoll)
    ensures LanesOk(h, Step(h, net, DeliverPoll))
  {
    LaneFacts(h, net.core.repeater, net.repeater, Repeater, net.shown);
    assert h + [] == h;
    hide LaneOk;
    var net' := Step(h, net, DeliverPoll);
    LaneGrows(h, [], net.core.repeater, net.repeater, Repeater, net.shown, net'.shown, net'.core.repeater);
    LaneGrows(h, [], net.core.intruder, net.intruder, Intruder, net.shown, net'.shown, net'.core.intruder);
  }

  lemma LanesStep(h: seq<Version>, net: Net, e: Event)
    requires |h| > 0 && Inv(h, net) && Enabled(h, net, e)
    ensures LanesOk(h + Appended(e), Step(h, net, e))
  {
    assert h + [] == h;
    hide LaneOk, Follows;
    match e
    case Accept(q, v) => AcceptStep(h, net, q, v);
    case AcceptLate(q, n, v) => AcceptLateStep(h, net, q, n, v);
    case DeliverPoll => DeliverStep(h, net);
    case SendPoll =>
    case AnswerPoll =>
    case FailPoll =>
    case _ => LocalStep(h, net, e);
  }

  /** What SeqOk needs to know about the lanes. */
  predicate Counted(c: Core) {
    c.repeater.pending == |c.repeater.queue| && c.intruder.pending == |c.intruder.queue|
  }

  lemma SeqDeliver(h: seq<Version>, net: Net)
    requires Lawful(h) && Counted(net.core) && Enabled(h, net, DeliverPoll)
    requires ClientOk(h, net.core, net.shown) && SeqOk(h, net.core, net.shown) && PollOk(h, net)
    ensures ClientOk(h, Step(h, net, DeliverPoll).core, Step(h, net, DeliverPoll).shown)
    ensures SeqOk(h, Step(h, net, DeliverPoll).core, Step(h, net, DeliverPoll).shown)
  {
    hide Follows;
    if net.poll.Full? {
      LawfulWellFormed(h, net.poll.at);
    }
  }

  lemma SeqStep(h: seq<Version>, net: Net, e: Event)
    requires Lawful(h) && Counted(net.core) && Enabled(h, net, e)
    requires ClientOk(h, net.core, net.shown) && SeqOk(h, net.core, net.shown) && PollOk(h, net)
    ensures ClientOk(h + Appended(e), Step(h, net, e).core, Step(h, net, e).shown)
    ensures SeqOk(h + Appended(e), Step(h, net, e).core, Step(h, net, e).shown)
  {
    hide Follows, Shown, Lawful;
    if e.DeliverPoll? {
      SeqDeliver(h, net);
    }
  }

  lemma PollStep(h: seq<Version>, net: Net, e: Event)
    requires |h| > 0 && Enabled(h, net, e) && ClientOk(h, net.core, net.shown) && PollOk(h, net)
    ensures PollOk(h + Appended(e), Step(h, net, e))
  {
    hide Follows;
  }

  lemma StepOk(h: seq<Version>, net: Net, e: Event)
    requires Lawful(h) && Inv(h, net) && Enabled(h, net, e)
    ensures Inv(h + Appended(e), Step(h, net, e))
  {
    LaneFacts(h, net.core.repeater, net.repeater, Repeater, net.shown);
    LaneFacts(h, net.core.intruder, net.intruder, Intruder, net.shown);
    LanesStep(h, net, e);
    SeqStep(h, net, e);
    PollStep(h, net, e);
  }

  /** The server changes for another reason. */
  lemma GrowsOk(h: seq<Version>, v: Version, net: Net)
    requires |h| > 0 && Inv(h, net)
    requires forall q: LaneName, n: nat :: WriteId(q, n) in v.accepted ==> WriteId(q, n) in h[|h| - 1].accepted
    ensures Inv(h + [v], net)
  {
    LaneGrows(h, [v], net.core.repeater, net.repeater, Repeater, net.shown, net.shown, net.core.repeater);
    LaneGrows(h, [v], net.core.intruder, net.intruder, Intruder, net.shown, net.shown, net.core.intruder);
    hide LaneOk;
  }

  /** Another handler sets NL._seq to 0. */
  lemma ResetOk(h: seq<Version>, net: Net)
    requires Inv(h, net)
    ensures Inv(h, net.(core := net.core.(seqNo := 0)))
  {
    hide LaneOk;
  }

  // ---------------------------------------------------------------- what the other parts of the client rely on

  lemma ClientFrame(h: seq<Version>, net: Net)
    requires Inv(h, net)
    ensures ClientOk(h, net.core, net.shown)
  {
    hide LanesOk;
  }

  lemma Frame(h: seq<Version>, net: Net, e: Event)
    requires |h| > 0 && Inv(h, net) && Enabled(h, net, e)
    ensures ClientOk(h, net.core, net.shown)
    ensures e.DeliverPoll? && net.poll.Full? ==>
      net.shown <= net.poll.at == Step(h, net, e).shown && Step(h, net, e).core.gen == h[net.poll.at].gen
    ensures !(e.DeliverPoll? && net.poll.Full?) ==>
      Step(h, net, e).shown == net.shown && Step(h, net, e).core.gen == net.core.gen && Step(h, net, e).core.token == net.core.token
  {
    hide LanesOk, Follows, SeqOk;
  }

  lemma AcceptFrame(h: seq<Version>, net: Net, e: Event)
    requires |h| > 0 && Enabled(h, net, e) && (e.Accept? || e.AcceptLate?)
    ensures Follows(h, e.v)
    ensures forall n: nat :: WriteId(Bench, n) in e.v.accepted ==> WriteId(Bench, n) in h[|h| - 1].accepted
  {
    hide Follows;
  }
}

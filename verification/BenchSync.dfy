/**
 * The Sequencer workspace: writeSequencer, refreshSequencer and sequencerReload against a server
 * that other clients edit too.
 */
module BenchSync {
  import opened Basics
  import opened ServerHistory
  import opened ClientState

  /** What a write asks for: a patch of the workspace, an append to its text, or one of the capture calls. */
  datatype Call = Patch(patch: Slice) | Append(text: string) | Capture
  {
    /** The server compares the textRevision of patches of the text, and of nothing else. */
    predicate Checked() { Patch? && "text" in patch }

    /** The fields `...payload.patch` lays over the local draft. */
    function Fields(): Slice { if Patch? then patch else map[] }
  }

  datatype BenchWrite = BenchWrite(gen: Generation, stamp: string, call: Call)

  datatype Workspace = Workspace(draft: Slice, rev: nat, textRev: nat)

  /** `error` is empty when no write has failed; `seenRev` is NL._sequencerRevision. */
  datatype BenchState = BenchState(
    workspace: Option<Workspace>, error: string, epoch: nat, pending: int,
    queue: seq<BenchWrite>, posted: bool, fetching: bool, seenRev: Option<nat>)

  function DataOf(v: Version): Workspace { Workspace(v.draft, v.benchRev, v.textRev) }

  // ---------------------------------------------------------------- the handlers

  function IssueBench(c: Core, s: BenchState, call: Call, optimistic: bool): BenchState {
    s.(epoch := s.epoch + 1, pending := s.pending + 1,
       workspace := if optimistic && s.workspace.Some?
                    then Some(s.workspace.value.(draft := s.workspace.value.draft + call.Fields())) else s.workspace,
       queue := s.queue + [BenchWrite(c.gen, c.token, call)])
  }

  predicate MayPost(c: Core, s: BenchState)
    requires s.queue != []
  {
    s.queue[0].gen == c.gen && s.error == ""
  }

  /** The textRevision a request carries: `workspace?.textRevision ?? -1`, read when it leaves. */
  function TextRevision(s: BenchState): int {
    match s.workspace case Some(w) => w.textRev case None => -1
  }

  /** The head is fulfilled (`data` is None for an answer without a draft): later keystrokes stay in the draft
      while the revision advances. */
  function FulfilBench(c: Core, s: BenchState, data: Option<Workspace>): BenchState
    requires s.queue != []
  {
    var keep := s.pending > 1 && s.workspace.Some?;
    var s' := if s.queue[0].gen == c.gen && data.Some?
              then s.(workspace := Some(data.value.(draft := if keep then s.workspace.value.draft else data.value.draft)))
              else s;
    s'.(queue := s.queue[1..], pending := s.pending - 1, posted := false)
  }

  /** The head is rejected: the error latches if its project is still shown. */
  function RejectBench(c: Core, s: BenchState, message: string): BenchState
    requires s.queue != []
  {
    s.(error := if s.queue[0].gen == c.gen then message else s.error,
       queue := s.queue[1..], pending := s.pending - 1, posted := false)
  }

  predicate MayFetch(s: BenchState) {
    && !s.fetching && s.pending == 0 && s.error == ""
    && !(s.workspace.Some? && Some(s.workspace.value.rev) == s.seenRev)
  }

  predicate FetchApplies(c: Core, s: BenchState, gen: Generation, epoch: nat, token: string) {
    gen == c.gen && epoch == s.epoch && s.pending == 0 && token == c.token
  }

  function FinishFetch(c: Core, s: BenchState, gen: Generation, epoch: nat, answer: Option<Version>): BenchState {
    if answer.Some? && FetchApplies(c, s, gen, epoch, answer.value.gen.token)
    then s.(workspace := Some(DataOf(answer.value)), fetching := false)
    else s.(fetching := false)
  }

  function Reload(s: BenchState): BenchState {
    if s.pending != 0 then s else s.(error := "", workspace := None, epoch := s.epoch + 1)
  }

  /** applySnapshot, as far as the Sequencer is concerned; `c` is the state before it. */
  function BenchSnapshot(c: Core, s: BenchState, snap: Snapshot): BenchState {
    if snap.gen != c.gen then s.(workspace := None, error := "", seenRev := snap.benchRev)
    else s.(seenRev := snap.benchRev)
  }

  // ---------------------------------------------------------------- the network

  datatype Fetch = Fetch(gen: Generation, epoch: nat, answer: Option<nat>)

  datatype Net = Net(
    state: BenchState, reply: Reply, fetch: Option<Fetch>,
    issued: seq<BenchWrite>,
    typedAt: seq<int>,    // the version the client's generation came from, at issue
    sent: map<nat, int>,  // for each posted write, the version whose textRevision it carries (-1: none)
    abandoned: set<nat>,
    seenAt: int)          // the version the workspace's textRevision comes from
  {
    function Head(): nat {
      if |state.queue| <= |issued| then |issued| - |state.queue| else 0
    }

    /** The version the workspace shows; -1 without a workspace. */
    function Seen(): int { if state.workspace.Some? then seenAt else -1 }
  }

  datatype Event =
    | Issue(call: Call, optimistic: bool) | Dispatch | Accept(v: Version) | Refuse
    | Deliver(message: string)
    | Fail(message: string) | AcceptLate(n: nat, v: Version)
    | StartFetch | AnswerFetch | DeliverFetch | FailFetch | ReloadWorkspace

  /** What the server does with the workspace; a capture call leaves the text alone. */
  predicate Effect(u: Version, v: Version, call: Call, n: nat) {
    match call
    case Patch(p) => v.draft == u.draft + p && v.textLog == u.textLog + if "text" in p then [Us(n)] else []
    case Append(t) =>
      var corpus := Corpus(u);
      && Corpus(v) == (if corpus == "" || corpus[|corpus| - 1] == '\n' then corpus else corpus + "\n") + t
      && v.textLog == u.textLog + [Us(n)]
    case Capture => Corpus(v) == Corpus(u) && v.textLog == u.textLog
  }

  /** The server's rules: a project stamp must be current, and so must the textRevision of a patch of the text. */
  predicate Performs(h: seq<Version>, v: Version, w: BenchWrite, textRev: int, id: WriteId)
    requires |h| > 0 && id.queue == Bench
  {
    var u := h[|h| - 1];
    && (w.stamp == "" || w.stamp == u.gen.token) && (w.call.Checked() ==> textRev == u.textRev)
    && Follows(h, v) && v.gen == u.gen && Effect(u, v, w.call, id.n)
    && id !in u.accepted && v.accepted == u.accepted + {id}
  }

  function SentRev(h: seq<Version>, at: int): int
    requires at < |h|
  {
    if at < 0 then -1 else h[at].textRev
  }

  predicate Enabled(h: seq<Version>, c: Core, net: Net, e: Event)
    requires |h| > 0
  {
    var s := net.state;
    match e
    case Issue(p, o) => true
    case Dispatch => s.queue != [] && !s.posted
    case Accept(v) =>
      && s.queue != [] && s.posted && net.reply.NoReply? && net.Head() in net.sent && net.sent[net.Head()] < |h|
      && Performs(h, v, s.queue[0], SentRev(h, net.sent[net.Head()]), WriteId(Bench, net.Head()))
    case Refuse => s.queue != [] && s.posted && net.reply.NoReply?
    case Deliver(m) => s.queue != [] && net.reply.Replied? && net.reply.at < |h| && m != ""
    case Fail(m) => s.queue != [] && s.posted && m != ""
    case AcceptLate(n, v) =>
      && n in net.abandoned && n < |net.issued| && n in net.sent && net.sent[n] < |h|
      && Performs(h, v, net.issued[n], SentRev(h, net.sent[n]), WriteId(Bench, n))
    case StartFetch => MayFetch(s)
    case AnswerFetch => net.fetch.Some? && net.fetch.value.answer.None?
    case DeliverFetch => net.fetch.Some? && net.fetch.value.answer.Some? && net.fetch.value.answer.value < |h|
    case FailFetch => net.fetch.Some?
    case ReloadWorkspace => true
  }

  function Appended(e: Event): seq<Version> {
    if e.Accept? || e.AcceptLate? then [e.v] else []
  }

  /** The workspace in the answer to a performed write; capture calls are answered without one. */
  function Answer(w: BenchWrite, v: Version): Option<Workspace> {
    if w.call.Capture? then None else Some(DataOf(v))
  }

  /** The acknowledgement under way replaces the workspace. */
  predicate TakesOver(c: Core, net: Net) {
    && net.state.queue != [] && net.reply.Replied? && net.reply.ok
    && net.state.queue[0].gen == c.gen && !net.state.queue[0].call.Capture?
  }

  function Step(h: seq<Version>, c: Core, shown: int, net: Net, e: Event): Net
    requires |h| > 0 && Enabled(h, c, net, e)
  {
    var s := net.state;
    match e
    case Issue(p, o) =>
      net.(state := IssueBench(c, s, p, o), issued := net.issued + [BenchWrite(c.gen, c.token, p)],
           typedAt := net.typedAt + [shown])
    case Dispatch =>
      if MayPost(c, s)
      then net.(state := s.(posted := true), reply := NoReply,
                sent := net.sent[net.Head() := net.Seen()])
      else net.(state := RejectBench(c, s, if s.queue[0].gen == c.gen then s.error else "Project changed; reopen Sequencer"))
    case Accept(v) => net.(reply := Replied(true, |h|))
    case Refuse => net.(reply := Replied(false, |h| - 1))
    case Deliver(m) =>
      if net.reply.ok
      then net.(state := FulfilBench(c, s, Answer(s.queue[0], h[net.reply.at])), reply := NoReply,
                seenAt := if TakesOver(c, net) then net.reply.at else net.seenAt)
      else net.(state := RejectBench(c, s, m), reply := NoReply)
    case Fail(m) =>
      net.(state := RejectBench(c, s, m), reply := NoReply, abandoned := net.abandoned + {net.Head()})
    case AcceptLate(n, v) => net.(abandoned := net.abandoned - {n})
    case StartFetch => net.(state := s.(fetching := true), fetch := Some(Fetch(c.gen, s.epoch, None)))
    case AnswerFetch => net.(fetch := Some(net.fetch.value.(answer := Some(|h| - 1))))
    case DeliverFetch =>
      var f := net.fetch.value;
      var v := h[f.answer.value];
      net.(state := FinishFetch(c, s, f.gen, f.epoch, Some(v)), fetch := None,
           seenAt := if FetchApplies(c, s, f.gen, f.epoch, v.gen.token) then f.answer.value else net.seenAt)
    case FailFetch => net.(state := s.(fetching := false), fetch := None)
    case ReloadWorkspace => net.(state := Reload(s))
  }

  /** The version whose draft replaces the local one in this step: that of an applied fetch, or of an acknowledgement
      that finds nothing else pending. */
  function Renewal(h: seq<Version>, c: Core, net: Net, e: Event): Option<nat> {
    if e.DeliverFetch? && net.fetch.Some? && net.fetch.value.answer.Some? && net.fetch.value.answer.value < |h|
       && FetchApplies(c, net.state, net.fetch.value.gen, net.fetch.value.epoch, h[net.fetch.value.answer.value].gen.token)
    then net.fetch.value.answer
    else if e.Deliver? && TakesOver(c, net) && (net.state.pending <= 1 || net.state.workspace.None?) then Some(net.reply.at)
    else None
  }

  function Refreshed(c: Core, net: Net, snap: Snapshot): Net {
    net.(state := BenchSnapshot(c, net.state, snap))
  }

  const IDLE := Net(BenchState(None, "", 0, 0, [], false, false, None), NoReply, None, [], [], map[], {}, -1)

  /** Loading the page. */
  function Start(snap: Snapshot): Net { Refreshed(Boot(EMPTY_SNAPSHOT), IDLE, snap) }

  // ---------------------------------------------------------------- invariant

  /** Between versions a and b, in one generation, only this client changed the text. */
  predicate OnlyUs(h: seq<Version>, a: int, b: int) {
    && 0 <= a <= b < |h| && h[a].gen.token == h[b].gen.token
    && h[a].textLog <= h[b].textLog
    && forall k | |h[a].textLog| <= k < |h[b].textLog| :: h[b].textLog[k].Us?
  }

  /** The workspace is of the project shown; before the first usable snapshot it may be of any. */
  predicate WorkspaceOk(h: seq<Version>, c: Core, net: Net) {
    net.state.workspace.Some? ==>
      && 0 <= net.seenAt < |h| && (c.token == "" || h[net.seenAt].gen.token == c.token)
      && net.state.workspace.value.textRev == h[net.seenAt].textRev && net.state.workspace.value.rev == h[net.seenAt].benchRev
  }

  /** The version recorded for a posted write is the one whose revision its request carries. */
  lemma SentIsTextRevision(h: seq<Version>, c: Core, net: Net)
    requires WorkspaceOk(h, c, net)
    ensures net.Seen() < |h| && (net.Seen() < 0 || |h| > 0) && TextRevision(net.state) == SentRev(h, net.Seen())
  {
  }

  predicate QueueOk(h: seq<Version>, shown: int, net: Net) {
    var s := net.state;
    && -1 <= shown < |h|
    && s.pending == |s.queue| <= |net.issued| == |net.typedAt|
    && s.queue == net.issued[net.Head()..]
    && (s.queue == [] ==> !s.posted)
    && (!s.posted ==> net.reply.NoReply?)
    && forall n | 0 <= n < |net.issued| ::
         && -1 <= net.typedAt[n] <= shown
         && net.issued[n].gen == GenAt(h, net.typedAt[n])
         && net.issued[n].stamp == net.issued[n].gen.token
  }

  /** Version i was made by performing write n, by the server's rules. */
  predicate Landed(h: seq<Version>, net: Net, n: nat, i: nat) {
    && 0 < i < |h| && n < |net.issued| && n in net.sent && -1 <= net.sent[n] < i
    && h[i].gen == h[i - 1].gen && (net.issued[n].stamp == "" || net.issued[n].stamp == h[i].gen.token)
    && (net.issued[n].call.Checked() ==>
          net.sent[n] >= 0 && h[net.sent[n]].textRev == h[i - 1].textRev && h[i].textLog == h[i - 1].textLog + [Us(n)])
  }

  /** The write that is out carries the revision of the workspace shown. */
  predicate PostedOk(c: Core, net: Net) {
    net.state.posted ==>
      && net.Head() < |net.issued| && net.Head() in net.sent
      && (net.issued[net.Head()].gen == c.gen ==> net.sent[net.Head()] == net.Seen())
  }

  predicate SentOk(h: seq<Version>, net: Net) {
    forall n | n in net.sent ::
      && n < |net.issued| && n <= net.Head() && (n == net.Head() ==> net.state.posted) && -1 <= net.sent[n] < |h|
      && (net.sent[n] >= 0 && net.issued[n].stamp != "" ==> h[net.sent[n]].gen.token == net.issued[n].stamp)
  }

  predicate ReplyOk(h: seq<Version>, net: Net) {
    net.reply.Replied? ==>
      && net.state.posted && net.reply.at < |h|
      && (net.reply.ok ==> Landed(h, net, net.Head(), net.reply.at))
  }

  ghost predicate LandedOk(h: seq<Version>, net: Net) {
    forall i, n: nat {:trigger WriteId(Bench, n) in h[i].accepted} | 0 <= i < |h| && WriteId(Bench, n) in h[i].accepted ::
      && n < |net.issued|
      && (i == 0 || WriteId(Bench, n) in h[i - 1].accepted || Landed(h, net, n, i))
  }

  predicate StateOk(h: seq<Version>, c: Core, shown: int, net: Net) {
    WorkspaceOk(h, c, net) && QueueOk(h, shown, net) && PostedOk(c, net) && SentOk(h, net) && ReplyOk(h, net)
  }

  ghost predicate Inv(h: seq<Version>, c: Core, shown: int, net: Net) {
    StateOk(h, c, shown, net) && LandedOk(h, net)
  }

  lemma StartOk(h: seq<Version>, c: Core, shown: int, snap: Snapshot)
    requires Lawful(h) && h[|h| - 1].accepted == {} && -1 <= shown < |h|
    ensures Inv(h, c, shown, Start(snap))
  {
    forall i | 0 <= i < |h| ensures h[i].accepted == {} {
      AcceptedGrows(h, i, |h| - 1);
    }
    hide Lawful, Landed;
    assert LandedOk(h, Start(snap));
    hide LandedOk;
  }

  lemma StateGrows(h: seq<Version>, v: Version, c: Core, shown: int, net: Net)
    requires StateOk(h, c, shown, net)
    ensures StateOk(h + [v], c, shown, net)
  {
  }

  lemma LandedGrows(h: seq<Version>, v: Version, net: Net)
    requires |h| > 0 && LandedOk(h, net)
    requires forall n: nat :: WriteId(Bench, n) in v.accepted ==> WriteId(Bench, n) in h[|h| - 1].accepted
    ensures LandedOk(h + [v], net)
  {
    forall i, n: nat {:trigger WriteId(Bench, n) in (h + [v])[i].accepted} |
      0 <= i < |h + [v]| && WriteId(Bench, n) in (h + [v])[i].accepted
      ensures n < |net.issued| && (i == 0 || WriteId(Bench, n) in (h + [v])[i - 1].accepted || Landed(h + [v], net, n, i))
    {
      if i < |h| {
        assert WriteId(Bench, n) in h[i].accepted;
      } else {
        assert WriteId(Bench, n) in h[|h| - 1].accepted;
      }
    }
  }

  lemma GrowsOk(h: seq<Version>, v: Version, c: Core, shown: int, net: Net)
    requires |h| > 0 && Inv(h, c, shown, net)
    requires forall n: nat :: WriteId(Bench, n) in v.accepted ==> WriteId(Bench, n) in h[|h| - 1].accepted
    ensures Inv(h + [v], c, shown, net)
  {
    hide StateOk, LandedOk;
    StateGrows(h, v, c, shown, net);
    LandedGrows(h, v, net);
  }

  /** What has landed stays landed when writes are issued and posted. */
  lemma LandedFrame(h: seq<Version>, net: Net, net': Net)
    requires LandedOk(h, net) && net.issued <= net'.issued
    requires forall n | n in net.sent :: n in net'.sent && net'.sent[n] == net.sent[n]
    ensures LandedOk(h, net')
  {
    forall i, n: nat {:trigger WriteId(Bench, n) in h[i].accepted} | 0 <= i < |h| && WriteId(Bench, n) in h[i].accepted
      ensures n < |net'.issued| && (i == 0 || WriteId(Bench, n) in h[i - 1].accepted || Landed(h, net', n, i))
    {
      assert n < |net.issued|;
    }
  }

  /** The server performs write n. */
  lemma PerformOk(h: seq<Version>, v: Version, c: Core, shown: int, net: Net, n: nat)
    requires |h| > 0 && Inv(h, c, shown, net)
    requires n < |net.issued| && n in net.sent && net.sent[n] < |h|
    requires Performs(h, v, net.issued[n], SentRev(h, net.sent[n]), WriteId(Bench, n))
    ensures Inv(h + [v], c, shown, net) && Landed(h + [v], net, n, |h|)
  {
    var g, last := h + [v], |h| - 1;
    assert g[|h|] == v && g[last] == h[last];
    assert Landed(g, net, n, |h|) by { hide Follows, WorkspaceOk, QueueOk, PostedOk, ReplyOk, LandedOk; }
    assert LandedOk(h, net) && StateOk(h, c, shown, net);
    assert v.accepted == h[last].accepted + {WriteId(Bench, n)};
    hide StateOk, Performs;
    StateGrows(h, v, c, shown, net);
    forall i, m: nat {:trigger WriteId(Bench, m) in g[i].accepted} | 0 <= i < |g| && WriteId(Bench, m) in g[i].accepted
      ensures m < |net.issued| && (i == 0 || WriteId(Bench, m) in g[i - 1].accepted || Landed(g, net, m, i))
    {
      if i < |h| {
        assert WriteId(Bench, m) in h[i].accepted;
      } else if m != n {
        assert WriteId(Bench, m) in h[last].accepted;
      }
    }
  }

  lemma RefuseOk(h: seq<Version>, c: Core, shown: int, net: Net, e: Event)
    requires |h| > 0 && Inv(h, c, shown, net) && Enabled(h, c, net, e) && (e.Refuse? || e.ReloadWorkspace?)
    ensures Inv(h, c, shown, Step(h, c, shown, net, e))
  {
    hide Follows;
  }

  /** The invariant says nothing about fetches under way. */
  lemma FetchFrame(h: seq<Version>, c: Core, shown: int, net: Net, fetch: Option<Fetch>, fetching: bool)
    requires Inv(h, c, shown, net)
    ensures Inv(h, c, shown, net.(fetch := fetch, state := net.state.(fetching := fetching)))
  {
    LandedFrame(h, net, net.(fetch := fetch, state := net.state.(fetching := fetching)));
    hide GenAt, LandedOk;
  }

  lemma FetchOk(h: seq<Version>, c: Core, shown: int, net: Net, e: Event)
    requires |h| > 0 && Inv(h, c, shown, net) && Enabled(h, c, net, e) && (e.StartFetch? || e.AnswerFetch? || e.FailFetch?)
    ensures Inv(h, c, shown, Step(h, c, shown, net, e))
  {
    hide Inv, Follows;
    var net' := Step(h, c, shown, net, e);
    assert net' == net.(fetch := net'.fetch, state := net.state.(fetching := net'.state.fetching));
    FetchFrame(h, c, shown, net, net'.fetch, net'.state.fetching);
  }

  lemma IssueOk(h: seq<Version>, c: Core, shown: int, net: Net, e: Event)
    requires |h| > 0 && ClientOk(h, c, shown) && Inv(h, c, shown, net) && Enabled(h, c, net, e) && e.Issue?
    ensures Inv(h, c, shown, Step(h, c, shown, net, e))
  {
    var net' := Step(h, c, shown, net, e);
    assert net'.Head() == net.Head() by { hide PostedOk, SentOk, ReplyOk, LandedOk, WorkspaceOk, GenAt; }
    LandedFrame(h, net, net');
    assert WorkspaceOk(h, c, net') by { hide PostedOk, SentOk, ReplyOk, LandedOk, QueueOk, GenAt; }
    assert QueueOk(h, shown, net') by { hide PostedOk, SentOk, ReplyOk, LandedOk, WorkspaceOk; }
    assert PostedOk(c, net') by { hide SentOk, ReplyOk, LandedOk, GenAt; }
    assert SentOk(h, net') && ReplyOk(h, net') by { hide WorkspaceOk, PostedOk, LandedOk, GenAt; }
    hide Step, Enabled, WorkspaceOk, QueueOk, PostedOk, SentOk, ReplyOk, LandedOk;
  }

  /** The head is rejected, by the server, by a time-out, or before it ever left. */
  predicate Rejects(c: Core, net: Net, e: Event)
    requires e.Dispatch? ==> net.state.queue != []
  {
    (e.Dispatch? && !MayPost(c, net.state)) || (e.Deliver? && net.reply.Replied? && !net.reply.ok) || e.Fail?
  }

  lemma PostOk(h: seq<Version>, c: Core, shown: int, net: Net)
    requires |h| > 0 && ClientOk(h, c, shown) && Inv(h, c, shown, net) && Enabled(h, c, net, Dispatch) && MayPost(c, net.state)
    ensures Inv(h, c, shown, Step(h, c, shown, net, Dispatch))
  {
    hide Follows;
  }

  lemma RejectOk(h: seq<Version>, c: Core, shown: int, net: Net, e: Event)
    requires |h| > 0 && ClientOk(h, c, shown) && Inv(h, c, shown, net) && Enabled(h, c, net, e) && Rejects(c, net, e)
    ensures Inv(h, c, shown, Step(h, c, shown, net, e))
  {
    hide Follows;
  }

  lemma FulfilOk(h: seq<Version>, c: Core, shown: int, net: Net, e: Event)
    requires |h| > 0 && ClientOk(h, c, shown) && Inv(h, c, shown, net) && Enabled(h, c, net, e)
    requires e.Deliver? && net.reply.ok
    ensures Inv(h, c, shown, Step(h, c, shown, net, e))
  {
    hide Follows;
  }

  /** With nothing pending a fetched workspace may replace the one shown. */
  lemma AdoptOk(h: seq<Version>, c: Core, shown: int, net: Net, i: nat)
    requires Inv(h, c, shown, net) && net.state.pending == 0 && i < |h| && h[i].gen.token == c.token
    ensures Inv(h, c, shown, net.(seenAt := i, state := net.state.(workspace := Some(DataOf(h[i])))))
  {
    LandedFrame(h, net, net.(seenAt := i, state := net.state.(workspace := Some(DataOf(h[i])))));
    hide GenAt, LandedOk;
  }

  lemma DeliverFetchOk(h: seq<Version>, c: Core, shown: int, net: Net)
    requires |h| > 0 && Inv(h, c, shown, net) && Enabled(h, c, net, DeliverFetch)
    ensures Inv(h, c, shown, Step(h, c, shown, net, DeliverFetch))
  {
    hide Inv, Follows;
    var f := net.fetch.value;
    var i := f.answer.value;
    if FetchApplies(c, net.state, f.gen, f.epoch, h[i].gen.token) {
      AdoptOk(h, c, shown, net, i);
      FetchFrame(h, c, shown, net.(seenAt := i, state := net.state.(workspace := Some(DataOf(h[i])))), None, false);
    } else {
      FetchFrame(h, c, shown, net, None, false);
    }
  }

  lemma AcceptOk(h: seq<Version>, c: Core, shown: int, net: Net, e: Event)
    requires Lawful(h) && ClientOk(h, c, shown) && Inv(h, c, shown, net) && Enabled(h, c, net, e) && (e.Accept? || e.AcceptLate?)
    ensures Inv(h + [e.v], c, shown, Step(h, c, shown, net, e))
  {
    var n := if e.Accept? then net.Head() else e.n;
    PerformOk(h, e.v, c, shown, net, n);
    hide Follows, Lawful;
  }

  lemma StepOk(h: seq<Version>, c: Core, shown: int, net: Net, e: Event)
    requires Lawful(h) && ClientOk(h, c, shown) && Inv(h, c, shown, net) && Enabled(h, c, net, e)
    ensures Inv(h + Appended(e), c, shown, Step(h, c, shown, net, e))
  {
    assert h + [] == h;
    hide Lawful, Inv, Step;
    match e
    case Issue(_, _) => IssueOk(h, c, shown, net, e);
    case Dispatch => if MayPost(c, net.state) { PostOk(h, c, shown, net); } else { RejectOk(h, c, shown, net, e); }
    case Accept(_) => AcceptOk(h, c, shown, net, e);
    case AcceptLate(_, _) => AcceptOk(h, c, shown, net, e);
    case Deliver(_) => if net.reply.ok { FulfilOk(h, c, shown, net, e); } else { RejectOk(h, c, shown, net, e); }
    case Fail(_) => RejectOk(h, c, shown, net, e);
    case DeliverFetch => DeliverFetchOk(h, c, shown, net);
    case StartFetch => FetchOk(h, c, shown, net, e);
    case AnswerFetch => FetchOk(h, c, shown, net, e);
    case FailFetch => FetchOk(h, c, shown, net, e);
    case _ => RefuseOk(h, c, shown, net, e);
  }

  /** A snapshot is delivered; in a new generation nothing queued belongs to it. */
  lemma RefreshedOk(h: seq<Version>, c: Core, shown: int, net: Net, i: nat, c': Core)
    requires Lawful(h) && ClientOk(h, c, shown) && Inv(h, c, shown, net) && shown <= i < |h|
    requires c'.gen == h[i].gen && c'.token == c'.gen.token
    ensures Inv(h, c', i, Refreshed(c, net, SnapshotOf(h[i])))
  {
    LawfulWellFormed(h, i);
    if c.gen != h[i].gen {
      forall n | 0 <= n < |net.issued| ensures net.issued[n].gen != h[i].gen {
        if net.typedAt[n] >= 0 && h[net.typedAt[n]].gen == h[i].gen {
          GenerationBlock(h, net.typedAt[n], shown, i);
        }
      }
    }
    hide Lawful, Follows;
  }

  lemma SameClientOk(h: seq<Version>, c: Core, shown: int, net: Net, c': Core)
    requires Inv(h, c, shown, net) && c'.gen == c.gen && c'.token == c.token
    ensures Inv(h, c', shown, net)
  {
  }

  lemma AcceptFrame(h: seq<Version>, c: Core, net: Net, e: Event)
    requires |h| > 0 && Enabled(h, c, net, e) && (e.Accept? || e.AcceptLate?)
    ensures Follows(h, e.v)
    ensures forall q, n: nat | q != Bench :: WriteId(q, n) in e.v.accepted ==> WriteId(q, n) in h[|h| - 1].accepted
  {
    hide Follows;
  }
}

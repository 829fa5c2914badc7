/**
 * When the Sequencer's workspace is fetched and renewed, and what its error does, told by the events of the run.
 */
module BenchRenewal {
  import opened Basics
  import opened ServerHistory
  import opened ClientState
  import opened ClientServer
  import S = SyncTheorems
  import T = SharedTheorems
  import Q = QueueTheorems
  import D = DraftSync
  import N = NotesSync
  import B = BenchSync

  // ---------------------------------------------------------------- the revision announced

  lemma ShownLocal(h: seq<Version>, net: D.Net, e: D.Event)
    requires |h| > 0 && D.Enabled(h, net, e)
    ensures D.Step(h, net, e).shown == if e.DeliverPoll? && net.poll.Full? then net.poll.at else net.shown
  {
    hide Follows, D.Performs, AcceptPoll, SliceOf;
  }

  lemma ShownStep(w: World, e: Event)
    requires Enabled(w, e)
    ensures Step(w, e).drafts.shown == if Delivers(w, e) then w.drafts.poll.at else w.drafts.shown
  {
    hide D.Step, B.Step, N.Step, D.Enabled, B.Enabled, N.Enabled, B.Refreshed, N.Refreshed, OthersChange;
    if e.Draft? {
      ShownLocal(w.h, w.drafts, e.d);
    }
  }

  /** The revision the snapshot delivered last gave for the workspace; before the first snapshot there is none. */
  predicate Announced(w: World, rev: Option<nat>) {
    && w.drafts.shown < |w.h|
    && rev == if w.drafts.shown < 0 then None else Some(w.h[w.drafts.shown].benchRev)
  }

  lemma SeenRevLocal(h: seq<Version>, c: Core, shown: int, net: B.Net, e: B.Event)
    requires |h| > 0 && B.Enabled(h, c, net, e)
    ensures B.Step(h, c, shown, net, e).state.seenRev == net.state.seenRev
  {
    hide B.Performs, B.FetchApplies;
  }

  lemma SeenRevStep(w: World, e: Event)
    requires Inv(w) && Enabled(w, e) && Announced(w, w.bench.state.seenRev)
    ensures Announced(Step(w, e), Step(w, e).bench.state.seenRev)
  {
    StepBench(w, e);
    ShownStep(w, e);
    S.HistoryStep(w, e);
    if e.Sequencer? {
      SeenRevLocal(w.h, w.drafts.core, w.drafts.shown, w.bench, e.b);
    }
    hide Inv, Step, Enabled, B.Step, B.Enabled;
  }

  lemma StartsAnnounced(w: World)
    requires Initial(w)
    ensures Announced(w, w.bench.state.seenRev) && w.bench.state.fetching == w.bench.fetch.Some?
    ensures w.bench.fetch.None?
  {
    assert |w.h| > 0;
    hide Lawful, N.Start, Boot;
    var loaded :| w == Start(w.h, loaded);
    assert w.drafts.shown == if loaded then |w.h| - 1 else -1;
  }

  lemma {:induction false} AnnouncedAt(ws: seq<World>, es: seq<Event>, i: nat)
    requires Run(ws, es) && i < |ws|
    ensures Announced(ws[i], ws[i].bench.state.seenRev)
  {
    hide Inv, Initial, Step, Enabled, Announced;
    if i == 0 {
      StartsAnnounced(ws[0]);
    } else {
      AnnouncedAt(ws, es, i - 1);
      RunOk(ws, es, i - 1);
      S.SegmentAt(ws, es, i - 1);
      SeenRevStep(ws[i - 1], es[i - 1]);
    }
  }

  // ---------------------------------------------------------------- the fetch under way

  lemma FetchLocal(h: seq<Version>, c: Core, shown: int, net: B.Net, e: B.Event)
    requires |h| > 0 && B.Enabled(h, c, net, e) && net.state.fetching == net.fetch.Some?
    ensures var net' := B.Step(h, c, shown, net, e);
      && net'.state.fetching == net'.fetch.Some?
      && (e.StartFetch? ==>
            net.fetch.None? && net'.fetch.Some? && net'.fetch.value.gen == c.gen && net'.fetch.value.epoch == net.state.epoch)
      && (!e.StartFetch? && net'.fetch.Some? ==>
            net.fetch.Some? && net'.fetch.value.gen == net.fetch.value.gen && net'.fetch.value.epoch == net.fetch.value.epoch)
  {
    hide B.Performs;
  }

  lemma FetchStep(w: World, e: Event)
    requires Enabled(w, e) && w.bench.state.fetching == w.bench.fetch.Some?
    ensures var b, b' := w.bench, Step(w, e).bench;
      && b'.state.fetching == b'.fetch.Some?
      && (e == Sequencer(B.StartFetch) ==>
            b.fetch.None? && b'.fetch.Some? && b'.fetch.value.gen == w.drafts.core.gen && b'.fetch.value.epoch == b.state.epoch)
      && (e != Sequencer(B.StartFetch) && b'.fetch.Some? ==>
            b.fetch.Some? && b'.fetch.value.gen == b.fetch.value.gen && b'.fetch.value.epoch == b.fetch.value.epoch)
  {
    StepBench(w, e);
    if e.Sequencer? {
      FetchLocal(w.h, w.drafts.core, w.drafts.shown, w.bench, e.b);
    }
    hide Step, Enabled, B.Step, B.Enabled;
  }

  lemma {:induction false} FetchingAt(ws: seq<World>, es: seq<Event>, i: nat)
    requires Run(ws, es) && i < |ws|
    ensures ws[i].bench.state.fetching == ws[i].bench.fetch.Some?
  {
    hide Inv, Initial, Step, Enabled;
    if i == 0 {
      StartsAnnounced(ws[0]);
    } else {
      FetchingAt(ws, es, i - 1);
      S.SegmentAt(ws, es, i - 1);
      FetchStep(ws[i - 1], es[i - 1]);
    }
  }

  /** EXACTLY WHEN THE WORKSPACE IS FETCHED: no fetch is under way, no write is pending, no error is shown, and the page
      has no workspace or one whose revision is not the one the snapshot delivered last gave. */
  lemma FetchedExactly(ws: seq<World>, es: seq<Event>, i: nat)
    requires Run(ws, es) && i < |ws|
    ensures ws[i].drafts.shown < |ws[i].h|
    ensures var w := ws[i];
      Enabled(w, Sequencer(B.StartFetch))
      <==> && w.bench.fetch.None? && w.bench.state.queue == [] && w.bench.state.error == ""
           && (w.bench.state.workspace.None? || w.drafts.shown < 0
               || w.bench.state.workspace.value.rev != w.h[w.drafts.shown].benchRev)
  {
    RunOk(ws, es, i);
    T.BenchFacts(ws[i]);
    AnnouncedAt(ws, es, i);
    FetchingAt(ws, es, i);
    hide Inv, Initial, Step, Segment, Lawful, D.Enabled, N.Enabled, OthersChange;
  }

  /** The fetch started at j, and no later one, is the one under way at i. */
  predicate FetchedAt(es: seq<Event>, j: nat, i: nat)
    requires i <= |es|
  {
    j < i && es[j] == Sequencer(B.StartFetch) && forall m | j < m < i :: es[m] != Sequencer(B.StartFetch)
  }

  lemma {:induction false} FetchOrigin(ws: seq<World>, es: seq<Event>, i: nat) returns (j: nat)
    requires Run(ws, es) && i < |ws| && ws[i].bench.fetch.Some?
    ensures i <= |es| && FetchedAt(es, j, i)
    ensures ws[i].bench.fetch.value.gen == ws[j].drafts.core.gen && ws[i].bench.fetch.value.epoch == ws[j].bench.state.epoch
  {
    hide Initial, Step, Enabled;
    StartsAnnounced(ws[0]);
    FetchingAt(ws, es, i - 1);
    S.SegmentAt(ws, es, i - 1);
    FetchStep(ws[i - 1], es[i - 1]);
    if es[i - 1] == Sequencer(B.StartFetch) {
      j := i - 1;
    } else {
      j := FetchOrigin(ws, es, i - 1);
    }
  }

  // ---------------------------------------------------------------- what the epoch counts

  /** The user reloads, and nothing is pending: while something is, the handler does nothing. */
  predicate Reloads(w: World, e: Event) { e == Sequencer(B.ReloadWorkspace) && w.bench.state.pending == 0 }

  /** A write is typed, or the workspace is reloaded. */
  predicate Disturbs(w: World, e: Event) { T.IssuesBench(e) || Reloads(w, e) }

  lemma EpochLocal(h: seq<Version>, c: Core, shown: int, net: B.Net, e: B.Event)
    requires |h| > 0 && B.Enabled(h, c, net, e)
    ensures B.Step(h, c, shown, net, e).state.epoch ==
      net.state.epoch + if e.Issue? || (e.ReloadWorkspace? && net.state.pending == 0) then 1 else 0
  {
    hide B.Performs, B.FetchApplies;
  }

  lemma EpochStep(w: World, e: Event)
    requires Enabled(w, e)
    ensures Step(w, e).bench.state.epoch == w.bench.state.epoch + if Disturbs(w, e) then 1 else 0
  {
    StepBench(w, e);
    if e.Sequencer? {
      EpochLocal(w.h, w.drafts.core, w.drafts.shown, w.bench, e.b);
    }
    hide Step, Enabled, B.Step, B.Enabled;
  }

  lemma {:induction false} EpochCounts(ws: seq<World>, es: seq<Event>, j: nat, i: nat)
    requires Segment(ws, es) && j <= i < |ws| && |ws| == |es| + 1
    ensures ws[j].bench.state.epoch <= ws[i].bench.state.epoch
    ensures ws[j].bench.state.epoch == ws[i].bench.state.epoch <==> forall m | j <= m < i :: !Disturbs(ws[m], es[m])
  {
    hide Step, Enabled, Disturbs;
    if j < i {
      EpochCounts(ws, es, j, i - 1);
      S.SegmentAt(ws, es, i - 1);
      EpochStep(ws[i - 1], es[i - 1]);
    }
  }

  lemma PendingLocal(h: seq<Version>, c: Core, shown: int, net: B.Net, e: B.Event)
    requires |h| > 0 && B.Enabled(h, c, net, e) && net.state.queue == [] && !e.Issue?
    ensures B.Step(h, c, shown, net, e).state.queue == []
  {
    hide B.Performs, B.FetchApplies;
  }

  lemma PendingStep(w: World, e: Event)
    requires Enabled(w, e) && w.bench.state.queue == [] && !T.IssuesBench(e)
    ensures Step(w, e).bench.state.queue == []
  {
    StepBench(w, e);
    if e.Sequencer? {
      PendingLocal(w.h, w.drafts.core, w.drafts.shown, w.bench, e.b);
    }
    hide Step, Enabled, B.Step, B.Enabled;
  }

  lemma {:induction false} StaysIdle(ws: seq<World>, es: seq<Event>, j: nat, i: nat)
    requires Segment(ws, es) && j <= i < |ws| && |ws| == |es| + 1 && ws[j].bench.state.queue == []
    requires forall m | j <= m < i :: !Disturbs(ws[m], es[m])
    ensures ws[i].bench.state.queue == []
  {
    hide Step, Enabled, Reloads;
    if j < i {
      StaysIdle(ws, es, j, i - 1);
      S.SegmentAt(ws, es, i - 1);
      PendingStep(ws[i - 1], es[i - 1]);
    }
  }

  // ---------------------------------------------------------------- the answer of a fetch

  lemma AnswerLocal(h: seq<Version>, c: Core, shown: int, net: B.Net)
    requires |h| > 0 && B.Enabled(h, c, net, B.DeliverFetch)
    ensures var f, s' := net.fetch.value, B.Step(h, c, shown, net, B.DeliverFetch).state;
      var v := h[f.answer.value];
      s'.workspace == if f.gen == c.gen && f.epoch == net.state.epoch && net.state.pending == 0 && v.gen.token == c.token
                      then Some(B.Workspace(v.draft, v.benchRev, v.textRev)) else net.state.workspace
  {
  }

  lemma AnswerStep(w: World)
    requires Inv(w) && Enabled(w, Sequencer(B.DeliverFetch))
    ensures w.bench.fetch.Some? && w.bench.fetch.value.answer.Some? && w.bench.fetch.value.answer.value < |w.h|
    ensures var f, c := w.bench.fetch.value, w.drafts.core;
      var v := w.h[f.answer.value];
      Step(w, Sequencer(B.DeliverFetch)).bench.state.workspace ==
        if f.gen == c.gen && f.epoch == w.bench.state.epoch && w.bench.state.queue == [] && v.gen == c.gen
        then Some(B.Workspace(v.draft, v.benchRev, v.textRev)) else w.bench.state.workspace
  {
    T.BenchFacts(w);
    AnswerOf(w);
    StepBench(w, Sequencer(B.DeliverFetch));
    var v := w.h[w.bench.fetch.value.answer.value];
    if v.gen.token == w.drafts.core.token {
      Q.SameToken(w.h, w.drafts.shown, w.bench.fetch.value.answer.value, w.drafts.core);
    }
    AnswerLocal(w.h, w.drafts.core, w.drafts.shown, w.bench);
    hide Inv, Lawful, Step, Enabled, B.Step, B.Enabled;
  }

  lemma AnswerOf(w: World)
    requires Enabled(w, Sequencer(B.DeliverFetch))
    ensures w.bench.fetch.Some? && w.bench.fetch.value.answer.Some? && w.bench.fetch.value.answer.value < |w.h|
  {
  }

  /** Between j and i the page shows one project, and no Sequencer write is typed and no reload done. */
  predicate Quiet(ws: seq<World>, es: seq<Event>, j: nat, i: nat)
    requires i < |ws| == |es| + 1
  {
    && (forall m | j <= m <= i :: ws[m].drafts.core.gen == ws[i].drafts.core.gen)
    && (forall m | j <= m < i :: !Disturbs(ws[m], es[m]))
  }

  lemma QuietExactly(ws: seq<World>, es: seq<Event>, j: nat, i: nat)
    requires Run(ws, es) && j <= i < |ws| && |ws| == |es| + 1
    ensures Quiet(ws, es, j, i)
      <==> ws[j].drafts.core.gen == ws[i].drafts.core.gen && ws[j].bench.state.epoch == ws[i].bench.state.epoch
  {
    hide Inv, Initial, Step, Enabled, Disturbs;
    EpochCounts(ws, es, j, i);
    if ws[j].drafts.core.gen == ws[i].drafts.core.gen {
      forall m | j <= m <= i ensures ws[m].drafts.core.gen == ws[i].drafts.core.gen {
        S.SameProjectBetween(ws, es, j, m, i);
      }
    }
  }

  /** EXACTLY WHEN A FETCHED WORKSPACE IS SHOWN: if the answer is of the project shown, and since the fetch was started that
      project has been shown all along, no write has been typed and no reload done. Then draft and both revisions are those of
      the version it was read off; otherwise the workspace stays as it was. */
  lemma RenewedExactly(ws: seq<World>, es: seq<Event>, i: nat) returns (j: nat)
    requires Run(ws, es) && i < |es| && es[i] == Sequencer(B.DeliverFetch)
    ensures FetchedAt(es, j, i) && |ws| == |es| + 1
    ensures ws[i].bench.fetch.Some? && ws[i].bench.fetch.value.answer.Some? && ws[i].bench.fetch.value.answer.value < |ws[i].h|
    ensures var v := ws[i].h[ws[i].bench.fetch.value.answer.value];
      ws[i + 1].bench.state.workspace ==
        if v.gen == ws[i].drafts.core.gen && Quiet(ws, es, j, i)
        then Some(B.Workspace(v.draft, v.benchRev, v.textRev)) else ws[i].bench.state.workspace
  {
    hide Inv, Initial, Step, Enabled, Disturbs, Quiet;
    RunOk(ws, es, i);
    S.SegmentAt(ws, es, i);
    AnswerStep(ws[i]);
    j := FetchOrigin(ws, es, i);
    S.SegmentAt(ws, es, j);
    QuietExactly(ws, es, j, i);
    if Quiet(ws, es, j, i) {
      FetchedExactly(ws, es, j);
      QuietStays(ws, es, j, i);
    }
  }

  lemma QuietStays(ws: seq<World>, es: seq<Event>, j: nat, i: nat)
    requires Segment(ws, es) && j <= i < |ws| && |ws| == |es| + 1 && ws[j].bench.state.queue == [] && Quiet(ws, es, j, i)
    ensures ws[i].bench.state.queue == []
  {
    hide Step, Enabled, Disturbs;
    StaysIdle(ws, es, j, i);
  }

  /** THE WORKSPACE CONVERGES: started in a quiet moment, a fetch whose answer is of the project shown leaves the page with
      the workspace of the version the server answered from, and another fetch starts exactly if the snapshot delivered last
      gives another revision. */
  lemma SequencerConverges(ws: seq<World>, es: seq<Event>, j: nat, i: nat)
    requires Run(ws, es) && i < |es| == |ws| - 1 && FetchedAt(es, j, i) && es[i] == Sequencer(B.DeliverFetch)
    requires Quiet(ws, es, j, i) && ws[i].bench.state.error == ""
    ensures ws[i].bench.fetch.Some? && ws[i].bench.fetch.value.answer.Some? && ws[i].bench.fetch.value.answer.value < |ws[i].h|
    ensures ws[i + 1].drafts.shown < |ws[i + 1].h|
    ensures var v, w' := ws[i].h[ws[i].bench.fetch.value.answer.value], ws[i + 1];
      v.gen == ws[i].drafts.core.gen ==>
        && w'.bench.state.workspace == Some(B.Workspace(v.draft, v.benchRev, v.textRev))
        && (Enabled(w', Sequencer(B.StartFetch)) <==> w'.drafts.shown < 0 || v.benchRev != w'.h[w'.drafts.shown].benchRev)
  {
    hide Inv, Initial, Step, Enabled, Disturbs, Quiet;
    var k := RenewedExactly(ws, es, i);
    S.SegmentAt(ws, es, j);
    FetchedExactly(ws, es, j);
    QuietStays(ws, es, j, i);
    FetchedExactly(ws, es, i + 1);
    S.SegmentAt(ws, es, i);
    AfterFetch(ws[i]);
  }

  lemma AfterFetch(w: World)
    requires Enabled(w, Sequencer(B.DeliverFetch))
    ensures var b, b' := w.bench.state, Step(w, Sequencer(B.DeliverFetch)).bench.state;
      b'.queue == b.queue && b'.error == b.error && Step(w, Sequencer(B.DeliverFetch)).bench.fetch.None?
  {
    hide D.Step, N.Step, AfterBench;
  }

  // ---------------------------------------------------------------- whose revisions the workspace carries

  /** The workspace shown carries both revisions of one version of the server; of the project shown, if the page has had a
      usable snapshot. */
  lemma RevisionsNameAVersion(ws: seq<World>, es: seq<Event>, i: nat)
    requires Run(ws, es) && i < |ws| && ws[i].bench.state.workspace.Some?
    ensures exists k | 0 <= k < |ws[i].h| ::
      && ws[i].bench.state.workspace.value.rev == ws[i].h[k].benchRev
      && ws[i].bench.state.workspace.value.textRev == ws[i].h[k].textRev
      && (ws[i].drafts.shown >= 0 ==> ws[i].h[k].gen == ws[i].drafts.core.gen)
  {
    hide Initial, Step, Enabled;
    RunOk(ws, es, i);
    T.BenchFacts(ws[i]);
    hide Inv;
    var k := ws[i].bench.seenAt;
    LawfulWellFormed(ws[i].h, k);
    if ws[i].drafts.shown >= 0 {
      LawfulWellFormed(ws[i].h, ws[i].drafts.shown);
      hide Lawful;
      Q.SameToken(ws[i].h, ws[i].drafts.shown, k, ws[i].drafts.core);
    }
  }

  // ---------------------------------------------------------------- the answer of a write

  lemma FulfilLocal(h: seq<Version>, c: Core, shown: int, net: B.Net, m: string)
    requires |h| > 0 && B.Enabled(h, c, net, B.Deliver(m)) && net.reply.ok
    ensures var s, s', v := net.state, B.Step(h, c, shown, net, B.Deliver(m)).state, h[net.reply.at];
      s'.workspace ==
        if s.queue[0].gen != c.gen || s.queue[0].call.Capture? then s.workspace
        else if s.workspace.Some? && s.pending > 1
        then Some(B.Workspace(s.workspace.value.draft, v.benchRev, v.textRev))
        else Some(B.Workspace(v.draft, v.benchRev, v.textRev))
  {
    hide B.Performs;
  }

  /** What the answer of a performed write does: if the write is of the project shown and its answer has a workspace, both
      revisions are taken over, and the draft too unless a later write is waiting; otherwise nothing. */
  lemma AcknowledgedExactly(ws: seq<World>, es: seq<Event>, i: nat, m: string)
    requires Run(ws, es) && i < |es| && es[i] == Sequencer(B.Deliver(m)) && ws[i].bench.reply.Replied? && ws[i].bench.reply.ok
    ensures ws[i].bench.reply.at < |ws[i].h| && ws[i].bench.state.queue != []
    ensures var s, s', v := ws[i].bench.state, ws[i + 1].bench.state, ws[i].h[ws[i].bench.reply.at];
      s'.workspace ==
        if s.queue[0].gen != ws[i].drafts.core.gen || s.queue[0].call.Capture? then s.workspace
        else if s.workspace.Some? && |s.queue| > 1
        then Some(B.Workspace(s.workspace.value.draft, v.benchRev, v.textRev))
        else Some(B.Workspace(v.draft, v.benchRev, v.textRev))
  {
    hide Initial;
    RunOk(ws, es, i);
    T.BenchFacts(ws[i]);
    S.SegmentAt(ws, es, i);
    StepBench(ws[i], es[i]);
    FulfilLocal(ws[i].h, ws[i].drafts.core, ws[i].drafts.shown, ws[i].bench, m);
    hide Inv, Step, Segment, Lawful, B.Step;
  }

  // ---------------------------------------------------------------- the error and the sending

  /** The message with which the request at the head of the queue fails in this step. */
  function Failure(w: World, e: Event): Option<string> {
    if !e.Sequencer? then None
    else match e.b
      case Fail(m) => Some(m)
      case Deliver(m) => if w.bench.reply.Replied? && !w.bench.reply.ok then Some(m) else None
      case _ => None
  }

  lemma ErrorLocal(h: seq<Version>, c: Core, shown: int, net: B.Net, e: B.Event, failure: Option<string>)
    requires |h| > 0 && B.Enabled(h, c, net, e)
    requires failure == match e case Fail(m) => Some(m)
                                case Deliver(m) => if net.reply.Replied? && !net.reply.ok then Some(m) else None
                                case _ => None
    ensures var s, s' := net.state, B.Step(h, c, shown, net, e).state;
      && (failure.Some? ==> s.queue != [])
      && s'.error == (if failure.Some? && s.queue[0].gen == c.gen then failure.value
                      else if e.ReloadWorkspace? && s.pending == 0 then "" else s.error)
      && (e.Dispatch? ==> s.queue != [] && (s'.posted <==> s.queue[0].gen == c.gen && s.error == "")
                          && s'.queue == if s'.posted then s.queue else s.queue[1..])
  {
    hide B.Performs, B.FetchApplies;
  }

  lemma ErrorStep(w: World, e: Event)
    requires Enabled(w, e)
    ensures var s, s' := w.bench.state, Step(w, e).bench.state;
      && (Failure(w, e).Some? ==> s.queue != [])
      && s'.error == (if Failure(w, e).Some? && s.queue[0].gen == w.drafts.core.gen then Failure(w, e).value
                      else if Reloads(w, e) || (Delivers(w, e) && Step(w, e).drafts.core.gen != w.drafts.core.gen) then ""
                      else s.error)
      && (e == Sequencer(B.Dispatch) ==>
            && s.queue != [] && (s'.posted <==> s.queue[0].gen == w.drafts.core.gen && s.error == "")
            && s'.queue == if s'.posted then s.queue else s.queue[1..])
  {
    StepBench(w, e);
    if e.Sequencer? {
      hide Step, Enabled, B.Step, B.Enabled;
      ErrorLocal(w.h, w.drafts.core, w.drafts.shown, w.bench, e.b, Failure(w, e));
    }
    hide Step, Enabled, B.Step, B.Enabled;
  }

  /** THE ERROR, EXACTLY: a request that fails latches its message if its project is still shown; a reload with nothing
      pending and a change of project clear it; nothing else touches it. */
  lemma ErrorExactly(ws: seq<World>, es: seq<Event>, i: nat)
    requires Run(ws, es) && i < |es|
    ensures Failure(ws[i], es[i]).Some? ==> ws[i].bench.state.queue != []
    ensures ws[i + 1].bench.state.error ==
      if Failure(ws[i], es[i]).Some? && ws[i].bench.state.queue[0].gen == ws[i].drafts.core.gen then Failure(ws[i], es[i]).value
      else if Reloads(ws[i], es[i]) || ws[i + 1].drafts.core.gen != ws[i].drafts.core.gen then ""
      else ws[i].bench.state.error
  {
    hide Initial, Step, Enabled, Failure, Inv;
    RunOk(ws, es, i);
    S.SegmentAt(ws, es, i);
    ErrorStep(ws[i], es[i]);
    if !Delivers(ws[i], es[i]) {
      Q.GenerationStep(ws[i], es[i]);
    }
  }

  /** A write whose turn comes is posted exactly if its project is shown and no error is; otherwise it is dropped. */
  lemma SentExactly(ws: seq<World>, es: seq<Event>, i: nat)
    requires Run(ws, es) && i < |es| && es[i] == Sequencer(B.Dispatch)
    ensures var s, s' := ws[i].bench.state, ws[i + 1].bench.state;
      && s.queue != [] && (s'.posted <==> s.queue[0].gen == ws[i].drafts.core.gen && s.error == "")
      && s'.queue == if s'.posted then s.queue else s.queue[1..]
  {
    hide Initial, Step, Enabled, Failure;
    S.SegmentAt(ws, es, i);
    ErrorStep(ws[i], es[i]);
  }

  // ---------------------------------------------------------------- all other steps

  /** The step delivers an answer about the workspace or reloads it. */
  predicate Answers(w: World, e: Event) {
    e.Sequencer? && (e.b.DeliverFetch? || e.b.ReloadWorkspace? || (e.b.Deliver? && w.bench.reply.Replied? && w.bench.reply.ok))
  }

  lemma OtherLocal(h: seq<Version>, c: Core, shown: int, net: B.Net, e: B.Event)
    requires |h| > 0 && B.Enabled(h, c, net, e) && !e.DeliverFetch? && !e.ReloadWorkspace?
    requires !(e.Deliver? && net.reply.Replied? && net.reply.ok)
    ensures var a, a' := net.state.workspace, B.Step(h, c, shown, net, e).state.workspace;
      a' == if e.Issue? && e.optimistic && e.call.Patch? && a.Some?
            then Some(B.Workspace(a.value.draft + e.call.patch, a.value.rev, a.value.textRev)) else a
  {
    hide B.Performs;
    if net.state.workspace.Some? {
      assert net.state.workspace.value.draft + map[] == net.state.workspace.value.draft;
    }
  }

  /** Everything else leaves the workspace alone, but for the patches typed, which are laid over its draft, and for a change of
      project, after which there is none. */
  lemma WorkspaceOtherwise(ws: seq<World>, es: seq<Event>, i: nat)
    requires Run(ws, es) && i < |es| && !Answers(ws[i], es[i])
    ensures var a, a', e := ws[i].bench.state.workspace, ws[i + 1].bench.state.workspace, es[i];
      a' == if ws[i + 1].drafts.core.gen != ws[i].drafts.core.gen then None
            else if T.IssuesBench(e) && e.b.optimistic && e.b.call.Patch? && a.Some?
            then Some(B.Workspace(a.value.draft + e.b.call.patch, a.value.rev, a.value.textRev)) else a
  {
    RunOk(ws, es, i);
    S.SegmentAt(ws, es, i);
    StepBench(ws[i], es[i]);
    hide Inv, Initial, Segment, Step, Enabled, B.Step, B.Enabled;
    if es[i].Sequencer? {
      OtherLocal(ws[i].h, ws[i].drafts.core, ws[i].drafts.shown, ws[i].bench, es[i].b);
    } else if !Delivers(ws[i], es[i]) {
      Q.GenerationStep(ws[i], es[i]);
    }
  }

  // ---------------------------------------------------------------- reload

  lemma ReloadLocal(h: seq<Version>, c: Core, shown: int, net: B.Net)
    requires |h| > 0
    ensures var s, s' := net.state, B.Step(h, c, shown, net, B.ReloadWorkspace).state;
      if s.pending == 0 then s'.workspace.None? && s'.error == "" && s'.queue == s.queue && s'.fetching == s.fetching else s' == s
    ensures B.Step(h, c, shown, net, B.ReloadWorkspace).fetch == net.fetch
  {
  }

  /** A reload drops workspace and error and lets a fetch start at once, unless one is under way; while a write is pending
      it does nothing. */
  lemma ReloadedExactly(ws: seq<World>, es: seq<Event>, i: nat)
    requires Run(ws, es) && i < |es| && es[i] == Sequencer(B.ReloadWorkspace)
    ensures ws[i].bench.state.queue == [] ==>
      && ws[i + 1].bench.state.workspace.None? && ws[i + 1].bench.state.error == ""
      && (Enabled(ws[i + 1], Sequencer(B.StartFetch)) <==> ws[i].bench.fetch.None?)
    ensures ws[i].bench.state.queue != [] ==> ws[i + 1].bench.state == ws[i].bench.state
  {
    hide Inv, Initial, Step, Enabled;
    RunOk(ws, es, i);
    T.BenchFacts(ws[i]);
    S.SegmentAt(ws, es, i);
    StepBench(ws[i], es[i]);
    hide Lawful, B.Step;
    ReloadLocal(ws[i].h, ws[i].drafts.core, ws[i].drafts.shown, ws[i].bench);
    FetchedExactly(ws, es, i + 1);
  }
}

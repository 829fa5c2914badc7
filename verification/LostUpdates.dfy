/**
 * Whether a patch of the Sequencer's text can erase a change of somebody else. The server compares the textRevision
 * of such patches only; the answers to field patches and appends move the revision along without that comparison,
 * while the local draft is kept.
 */
module LostUpdates {
  import opened Basics
  import opened ServerHistory
  import opened ClientState
  import opened ClientServer
  import S = SyncTheorems
  import T = SharedTheorems
  import Q = QueueTheorems
  import D = DraftSync
  import N = NotesSync
  import B = BenchSync

  /** The workspace of an acknowledgement is about to replace the one shown. */
  predicate TakesOver(w: World, e: Event) {
    e.Sequencer? && e.b.Deliver? && B.TakesOver(w.drafts.core, w.bench)
  }

  // ---------------------------------------------------------------- what the workspace shows while a write waits

  lemma SeenLocal(h: seq<Version>, c: Core, shown: int, net: B.Net, e: B.Event)
    requires |h| > 0 && B.StateOk(h, c, shown, net) && B.Enabled(h, c, net, e) && net.state.pending > 0
    ensures B.Step(h, c, shown, net, e).Seen() == if e.Deliver? && B.TakesOver(c, net) then net.reply.at else net.Seen()
    ensures e.Deliver? && B.TakesOver(c, net) ==> net.Seen() < net.reply.at < |h|
  {
    hide B.Performs, B.SentOk, GenAt;
  }

  lemma SeenStep(w: World, e: Event)
    requires Inv(w) && Enabled(w, e) && w.bench.state.pending > 0 && Step(w, e).drafts.core.gen == w.drafts.core.gen
    ensures -1 <= w.bench.Seen() < |w.h|
    ensures Step(w, e).bench.Seen() == if TakesOver(w, e) then w.bench.reply.at else w.bench.Seen()
    ensures TakesOver(w, e) ==> w.bench.Seen() < w.bench.reply.at < |w.h|
  {
    T.BenchFacts(w);
    BenchInv(w);
    StepBench(w, e);
    if e.Sequencer? {
      SeenLocal(w.h, w.drafts.core, w.drafts.shown, w.bench, e.b);
    }
    hide Inv, Lawful, Step, Enabled, B.Step, B.Enabled, B.StateOk, B.QueueOk;
  }

  lemma BenchInv(w: World)
    requires Inv(w)
    ensures B.StateOk(w.h, w.drafts.core, w.drafts.shown, w.bench)
  {
    hide Lawful, D.Inv, N.Inv, B.StateOk, B.LandedOk;
  }

  /** Typing changes nothing about the version shown. */
  lemma IssueKeepsSeen(w: World, e: Event)
    requires Enabled(w, e) && T.IssuesBench(e)
    ensures Step(w, e).bench.Seen() == w.bench.Seen()
  {
    StepBench(w, e);
    assert B.Step(w.h, w.drafts.core, w.drafts.shown, w.bench, e.b).Seen() == w.bench.Seen() by { hide Step, Enabled; }
    hide Step, Enabled, B.Step;
  }

  // ---------------------------------------------------------------- where a request was sent

  lemma SentLocal(h: seq<Version>, c: Core, shown: int, net: B.Net, e: B.Event)
    requires |h| > 0 && B.Enabled(h, c, net, e)
    ensures B.Step(h, c, shown, net, e).sent ==
      if e == B.Dispatch && B.MayPost(c, net.state) then net.sent[net.Head() := net.Seen()] else net.sent
  {
    hide B.Performs;
  }

  lemma SentStep(w: World, e: Event)
    requires Enabled(w, e)
    ensures Step(w, e).bench.sent == if T.PostsBench(w, e) then w.bench.sent[w.bench.Head() := w.bench.Seen()] else w.bench.sent
  {
    StepBench(w, e);
    Q.DispatchNotPosted(w, e);
    if e.Sequencer? {
      SentLocal(w.h, w.drafts.core, w.drafts.shown, w.bench, e.b);
    }
    hide Step, B.Step, Enabled;
  }

  /** A request that was sent left at some step d, with the revision of the version shown there. */
  lemma {:induction false} SentOrigin(ws: seq<World>, es: seq<Event>, i: nat, n: nat) returns (d: nat)
    requires Segment(ws, es) && ws[0].bench.sent == map[] && i < |ws| && n in ws[i].bench.sent
    ensures d < i && T.PostsBench(ws[d], es[d]) && ws[d].bench.Head() == n && ws[i].bench.sent[n] == ws[d].bench.Seen()
  {
    hide Step, Enabled;
    SentStep(ws[i - 1], es[i - 1]);
    if T.PostsBench(ws[i - 1], es[i - 1]) && ws[i - 1].bench.Head() == n {
      d := i - 1;
    } else {
      d := SentOrigin(ws, es, i - 1, n);
    }
  }

  lemma {:induction false} IssuedGrows(ws: seq<World>, es: seq<Event>, j: nat, i: nat)
    requires Segment(ws, es) && j <= i < |ws|
    ensures ws[j].bench.issued <= ws[i].bench.issued
  {
    hide Step, Enabled;
    if j < i {
      IssuedGrows(ws, es, j, i - 1);
      T.BenchIssueStep(ws[i - 1], es[i - 1]);
    }
  }

  lemma {:induction false} HeadGrows(ws: seq<World>, es: seq<Event>, j: nat, i: nat)
    requires Run(ws, es) && j <= i < |ws|
    ensures ws[j].bench.Head() <= ws[i].bench.Head()
  {
    hide Initial, Step, Enabled;
    if j < i {
      HeadGrows(ws, es, j, i - 1);
      Q.BenchHeadAt(ws, es, i - 1);
    }
  }

  /** A write is pending at m, and the step from there does not change the project. */
  predicate Stays(ws: seq<World>, m: nat)
    requires m + 1 < |ws|
  {
    ws[m].bench.state.pending > 0 && ws[m + 1].drafts.core.gen == ws[m].drafts.core.gen
  }

  /** From its typing at j to its sending at d a write waits in the queue, and the project stays. */
  predicate Waits(ws: seq<World>, j: nat, d: nat)
    requires j < d < |ws|
  {
    forall m | j < m < d :: Stays(ws, m)
  }

  lemma WriteWaits(ws: seq<World>, es: seq<Event>, j: nat, d: nat)
    requires Run(ws, es) && j < d < |es| && T.IssuesBench(es[j]) && T.PostsBench(ws[d], es[d])
    requires ws[d].bench.Head() == |ws[j].bench.issued| && ws[j].drafts.core.gen == ws[d].drafts.core.gen
    ensures Waits(ws, j, d)
  {
    S.SegmentAt(ws, es, j);
    T.BenchIssueStep(ws[j], es[j]);
    hide Initial, Inv, Step, Enabled, Segment, B.QueueOk, T.IssuesBench;
    forall m | j < m < d ensures Stays(ws, m) {
      IssuedGrows(ws, es, j + 1, m);
      HeadGrows(ws, es, m, d);
      Q.BenchPendingCounts(ws, es, m);
      S.SameProjectBetween(ws, es, j, m, d);
      S.SameProjectBetween(ws, es, j, m + 1, d);
    }
  }

  // ---------------------------------------------------------------- changes of the text between two versions

  /** Between a and b only this client changed the text, or they are the same (-1 stands for no workspace). */
  predicate NothingForeign(h: seq<Version>, a: int, b: int) { a == b || B.OnlyUs(h, a, b) }

  lemma OnlyUsSplits(h: seq<Version>, a: nat, s: nat, t: nat)
    requires Lawful(h) && a <= s <= t < |h|
    ensures B.OnlyUs(h, a, t) <==> B.OnlyUs(h, a, s) && B.OnlyUs(h, s, t)
  {
    if h[a].gen.token == h[t].gen.token {
      GenerationBlock(h, a, s, t);
      TextDetermined(h, a, s);
      TextDetermined(h, s, t);
      hide Lawful;
    }
  }

  lemma OnlyUsLater(h: seq<Version>, g: seq<Version>, a: int, b: int)
    requires h <= g && b < |h|
    ensures B.OnlyUs(h, a, b) <==> B.OnlyUs(g, a, b)
  {
  }

  /** One more workspace is taken over. */
  lemma OneMore(h: seq<Version>, a: int, s: int, t: int)
    requires Lawful(h) && -1 <= a <= s < t < |h|
    ensures NothingForeign(h, a, t) <==> NothingForeign(h, a, s) && B.OnlyUs(h, s, t)
  {
    if a >= 0 {
      OnlyUsSplits(h, a, s, t);
    }
    hide Lawful;
  }

  /** Each workspace taken over from step b up to m was read off a version up to which, since the one shown, only
      this client had changed the text. */
  predicate OursBetween(ws: seq<World>, es: seq<Event>, h: seq<Version>, b: nat, m: nat)
    requires m < |ws| == |es| + 1
  {
    forall t | b <= t < m && TakesOver(ws[t], es[t]) :: B.OnlyUs(h, ws[t].bench.Seen(), ws[t].bench.reply.at)
  }

  /** The same of the acknowledgements of unchecked writes alone. */
  predicate UncheckedOurs(ws: seq<World>, es: seq<Event>, h: seq<Version>, b: nat, m: nat)
    requires m < |ws| == |es| + 1
  {
    forall t | b <= t < m && TakesOver(ws[t], es[t]) && !ws[t].bench.state.queue[0].call.Checked() ::
      B.OnlyUs(h, ws[t].bench.Seen(), ws[t].bench.reply.at)
  }

  lemma OursLater(ws: seq<World>, es: seq<Event>, h: seq<Version>, b: nat, m: nat)
    requires b <= m && m + 1 < |ws| == |es| + 1
    ensures OursBetween(ws, es, h, b, m + 1)
      <==> OursBetween(ws, es, h, b, m) && (TakesOver(ws[m], es[m]) ==> B.OnlyUs(h, ws[m].bench.Seen(), ws[m].bench.reply.at))
  {
    hide TakesOver, B.OnlyUs;
  }

  /** In step t the version shown changes by acknowledgements alone, and to a later one. */
  predicate Flows(ws: seq<World>, es: seq<Event>, h: seq<Version>, t: nat)
    requires t + 1 < |ws| == |es| + 1
  {
    && ws[t + 1].bench.Seen() == (if TakesOver(ws[t], es[t]) then ws[t].bench.reply.at else ws[t].bench.Seen())
    && (TakesOver(ws[t], es[t]) ==> ws[t].bench.Seen() < ws[t].bench.reply.at < |h|)
  }

  predicate FlowsOn(ws: seq<World>, es: seq<Event>, h: seq<Version>, b: nat, m: nat)
    requires m < |ws| == |es| + 1
  {
    forall t | b <= t < m :: Flows(ws, es, h, t)
  }

  lemma FlowsWaiting(ws: seq<World>, es: seq<Event>, i: nat, m: nat)
    requires Run(ws, es) && m < |es| && m <= i < |ws| == |es| + 1 && Stays(ws, m)
    ensures Flows(ws, es, ws[i].h, m)
  {
    RunOk(ws, es, m);
    S.SegmentAt(ws, es, m);
    S.HistoryGrows(ws, es, m, i);
    hide Initial, Inv, Step, Enabled, Segment, TakesOver;
    SeenStep(ws[m], es[m]);
  }

  lemma FlowsTyping(ws: seq<World>, es: seq<Event>, h: seq<Version>, j: nat)
    requires Segment(ws, es) && j < |es| && |ws| == |es| + 1 && T.IssuesBench(es[j])
    ensures Flows(ws, es, h, j)
  {
    S.SegmentAt(ws, es, j);
    hide Step, Enabled, Segment, B.TakesOver;
    IssueKeepsSeen(ws[j], es[j]);
  }

  /** Nothing foreign has come in since b exactly when nothing did with any workspace taken over. */
  lemma {:induction false} SeenChain(ws: seq<World>, es: seq<Event>, h: seq<Version>, b: nat, m: nat)
    requires b <= m < |ws| && |ws| == |es| + 1 && Lawful(h) && FlowsOn(ws, es, h, b, m) && -1 <= ws[b].bench.Seen() < |h|
    ensures ws[b].bench.Seen() <= ws[m].bench.Seen() < |h|
    ensures NothingForeign(h, ws[b].bench.Seen(), ws[m].bench.Seen()) <==> OursBetween(ws, es, h, b, m)
  {
    hide TakesOver, Lawful, B.OnlyUs;
    if b < m {
      SeenChain(ws, es, h, b, m - 1);
      OursLater(ws, es, h, b, m - 1);
      assert Flows(ws, es, h, m - 1);
      hide NothingForeign, OursBetween, FlowsOn;
      if TakesOver(ws[m - 1], es[m - 1]) {
        OneMore(h, ws[b].bench.Seen(), ws[m - 1].bench.Seen(), ws[m].bench.Seen());
      }
    }
  }

  // ---------------------------------------------------------------- whose text the draft shows

  /** The version whose draft replaces the local one in this step. */
  function Renewal(w: World, e: Event): Option<nat> {
    if e.Sequencer? then B.Renewal(w.h, w.drafts.core, w.bench, e.b) else None
  }

  function Typed(e: Event): Slice {
    if T.IssuesBench(e) && e.b.optimistic then e.b.call.Fields() else map[]
  }

  lemma RenewalLocal(h: seq<Version>, c: Core, shown: int, net: B.Net, e: B.Event)
    requires |h| > 0 && B.Enabled(h, c, net, e)
    ensures var r, net' := B.Renewal(h, c, net, e), B.Step(h, c, shown, net, e);
      && (r.Some? ==> r.value < |h| && net'.state.workspace == Some(B.DataOf(h[r.value])) && net'.Seen() == r.value)
      && (r.None? && net'.state.workspace.Some? ==>
            && net.state.workspace.Some?
            && net'.Seen() == (if e.Deliver? && B.TakesOver(c, net) then net.reply.at else net.Seen())
            && net'.state.workspace.value.draft ==
                 if e.Issue? && e.optimistic then net.state.workspace.value.draft + e.call.Fields() else net.state.workspace.value.draft)
  {
    hide B.Performs;
  }

  lemma SequencerStep(w: World, e: Event)
    requires Enabled(w, e) && e.Sequencer?
    ensures var r, b, b' := Renewal(w, e), w.bench, Step(w, e).bench;
      && (r.Some? ==> r.value < |w.h| && b'.state.workspace == Some(B.DataOf(w.h[r.value])) && b'.Seen() == r.value)
      && (r.None? && b'.state.workspace.Some? ==>
            && b.state.workspace.Some? && Step(w, e).drafts.core.gen == w.drafts.core.gen
            && b'.Seen() == (if TakesOver(w, e) then b.reply.at else b.Seen())
            && b'.state.workspace.value.draft == b.state.workspace.value.draft + Typed(e))
  {
    StepBench(w, e);
    hide Step, Enabled, B.Step, B.Enabled, B.Renewal, B.TakesOver;
    RenewalLocal(w.h, w.drafts.core, w.drafts.shown, w.bench, e.b);
  }

  lemma RenewalStep(w: World, e: Event)
    requires Inv(w) && Enabled(w, e)
    ensures var r, b, b' := Renewal(w, e), w.bench, Step(w, e).bench;
      && (r.Some? ==> r.value < |w.h| && b'.state.workspace == Some(B.DataOf(w.h[r.value])) && b'.Seen() == r.value)
      && (r.None? && b'.state.workspace.Some? ==>
            && b.state.workspace.Some? && Step(w, e).drafts.core.gen == w.drafts.core.gen
            && b'.Seen() == (if TakesOver(w, e) then b.reply.at else b.Seen())
            && b'.state.workspace.value.draft == b.state.workspace.value.draft + Typed(e))
  {
    if e.Sequencer? {
      hide Inv, Step, Enabled, B.TakesOver, B.Renewal;
      SequencerStep(w, e);
    } else {
      hide Inv, Step, Enabled, B.TakesOver, B.Renewal;
      OtherStep(w, e);
    }
  }

  /** A step of another part of the page keeps the Sequencer, unless it changes the project. */
  lemma OtherStep(w: World, e: Event)
    requires Inv(w) && Enabled(w, e) && !e.Sequencer?
    ensures var s, s' := w.bench.state, Step(w, e).bench.state; s'.workspace.Some? ==>
      && s'.workspace == s.workspace && Step(w, e).bench.Seen() == w.bench.Seen()
      && Step(w, e).drafts.core.gen == w.drafts.core.gen
  {
    StepBench(w, e);
    if !Delivers(w, e) {
      Q.GenerationStep(w, e);
    }
    hide Inv, Step, Enabled, B.Step, B.Enabled;
  }

  /** Step t leaves a workspace as it was, but for a patch typed or a revision moved on. */
  predicate Keeps(ws: seq<World>, es: seq<Event>, t: nat)
    requires t + 1 < |ws| == |es| + 1
  {
    && Renewal(ws[t], es[t]).None? && ws[t].bench.state.workspace.Some? && ws[t + 1].bench.state.workspace.Some?
    && ws[t + 1].drafts.core.gen == ws[t].drafts.core.gen
  }

  /** In step b - 1 the draft of version `Seen()` was taken over, and no other has been since. */
  predicate TextTaken(ws: seq<World>, es: seq<Event>, b: nat, j: nat)
    requires j < |ws| == |es| + 1
  {
    && 0 < b <= j && Renewal(ws[b - 1], es[b - 1]) == Some(ws[b].bench.Seen()) && ws[b].bench.Seen() < |ws[b].h|
    && ws[b].bench.state.workspace == Some(B.DataOf(ws[b].h[ws[b].bench.Seen()]))
    && forall t | b <= t < j :: Keeps(ws, es, t)
  }

  lemma RenewalAt(ws: seq<World>, es: seq<Event>, k: nat)
    requires Run(ws, es) && k < |es|
    ensures var r, s' := Renewal(ws[k], es[k]), ws[k + 1].bench.state;
      && (r.Some? ==>
            r.value < |ws[k + 1].h| && s'.workspace == Some(B.DataOf(ws[k + 1].h[r.value])) && ws[k + 1].bench.Seen() == r.value)
      && (r.None? && s'.workspace.Some? ==> |ws| == |es| + 1 && Keeps(ws, es, k))
  {
    RunOk(ws, es, k);
    S.SegmentAt(ws, es, k);
    S.HistoryGrows(ws, es, k, k + 1);
    hide Initial, Inv, Step, Enabled, Segment, Renewal, Typed;
    RenewalStep(ws[k], es[k]);
  }

  lemma StartsWithoutWorkspace(ws: seq<World>, es: seq<Event>)
    requires Run(ws, es)
    ensures ws[0].bench.state.workspace.None? && !HasWorkspace(ws[0]) && |ws| == |es| + 1
  {
    hide Enabled, Step, D.Start, N.Start, Lawful;
  }

  lemma {:induction false} LastText(ws: seq<World>, es: seq<Event>, j: nat) returns (b: nat)
    requires Run(ws, es) && j < |ws| && |ws| == |es| + 1 && HasWorkspace(ws[j])
    ensures TextTaken(ws, es, b, j)
    decreases j
  {
    hide *;
    StartsWithoutWorkspace(ws, es);
    if j > 0 {
      var taken := TakenOrKept(ws, es, j - 1);
      if taken {
        b := j;
      } else {
        b := LastText(ws, es, j - 1);
        TextTakenLater(ws, es, b, j);
      }
    }
  }

  predicate HasWorkspace(w: World) { w.bench.state.workspace.Some? }

  lemma TakenOrKept(ws: seq<World>, es: seq<Event>, k: nat) returns (taken: bool)
    requires Run(ws, es) && k < |es| && |ws| == |es| + 1 && HasWorkspace(ws[k + 1])
    ensures taken ==> TextTaken(ws, es, k + 1, k + 1)
    ensures !taken ==> Keeps(ws, es, k) && HasWorkspace(ws[k])
  {
    hide Initial, Step, Enabled, Segment, Renewal;
    RenewalAt(ws, es, k);
    taken := Renewal(ws[k], es[k]).Some?;
  }

  lemma TextTakenLater(ws: seq<World>, es: seq<Event>, b: nat, j: nat)
    requires 0 < j < |ws| == |es| + 1 && TextTaken(ws, es, b, j - 1) && Keeps(ws, es, j - 1)
    ensures TextTaken(ws, es, b, j)
  {
    hide Renewal, Keeps;
  }

  /** The optimistic patches among the events, in order. */
  function PatchesIn(es: seq<Event>): seq<Slice> {
    if es == [] then [] else PatchesIn(es[..|es| - 1]) + [Typed(es[|es| - 1])]
  }

  lemma KeepsDraft(ws: seq<World>, es: seq<Event>, t: nat)
    requires Run(ws, es) && t < |es| && |ws| == |es| + 1 && Keeps(ws, es, t)
    ensures ws[t + 1].bench.state.workspace.value.draft == ws[t].bench.state.workspace.value.draft + Typed(es[t])
    ensures ws[t + 1].bench.Seen() == if TakesOver(ws[t], es[t]) then ws[t].bench.reply.at else ws[t].bench.Seen()
  {
    RunOk(ws, es, t);
    S.SegmentAt(ws, es, t);
    hide Initial, Inv, Step, Enabled, Segment, Renewal, Typed, TakesOver;
    RenewalStep(ws[t], es[t]);
  }

  /** The draft shown at j: that of the version taken over last, with the patches typed since laid over it, in the
      project shown ever since. */
  predicate ShownSince(ws: seq<World>, es: seq<Event>, b: nat, j: nat)
    requires j < |ws| == |es| + 1
  {
    && TextTaken(ws, es, b, j) && ws[j].bench.state.workspace.Some?
    && ws[j].bench.state.workspace.value.draft == S.Overlay(ws[b].h[ws[b].bench.Seen()].draft, PatchesIn(es[b..j]))
    && forall m | b <= m <= j :: ws[m].drafts.core.gen == ws[j].drafts.core.gen
  }

  lemma PatchesLater(base: Slice, es: seq<Event>, b: nat, j: nat)
    requires b < j <= |es|
    ensures S.Overlay(base, PatchesIn(es[b..j])) == S.Overlay(base, PatchesIn(es[b..j - 1])) + Typed(es[j - 1])
  {
    S.SliceLast(es, b, j);
    hide Typed;
    var before, after := PatchesIn(es[b..j - 1]), PatchesIn(es[b..j]);
    assert after[..|after| - 1] == before;
  }

  lemma {:induction false} TextShown(ws: seq<World>, es: seq<Event>, b: nat, j: nat)
    requires Run(ws, es) && j < |ws| && |ws| == |es| + 1 && TextTaken(ws, es, b, j)
    ensures ShownSince(ws, es, b, j)
  {
    hide Initial, Step, Enabled, Segment, Renewal, Typed;
    if b == j {
      assert es[b..b] == [];
    } else {
      assert Keeps(ws, es, j - 1);
      TextShown(ws, es, b, j - 1);
      KeepsDraft(ws, es, j - 1);
      PatchesLater(ws[b].h[ws[b].bench.Seen()].draft, es, b, j);
    }
  }

  /** THE SEQUENCER'S DRAFT, at every moment of every run with a workspace: the draft of the version taken over last,
      with every patch typed since laid over it in order. */
  lemma SequencerDraftIsOverlay(ws: seq<World>, es: seq<Event>, j: nat) returns (b: nat)
    requires Run(ws, es) && j < |ws| && ws[j].bench.state.workspace.Some?
    ensures |ws| == |es| + 1 && ShownSince(ws, es, b, j)
  {
    assert |ws| == |es| + 1;
    hide Initial, Step, Enabled, Segment, TextTaken, ShownSince;
    b := LastText(ws, es, j);
    TextShown(ws, es, b, j);
  }

  // ---------------------------------------------------------------- what a performed text patch hides

  /** The revision that was current when the patch was performed names the text it was sent over. */
  lemma Performed(h: seq<Version>, a: int, s: nat, k: nat)
    requires Lawful(h) && -1 <= a <= s < k < |h|
    requires h[k].gen == h[k - 1].gen && h[s].textRev == h[k - 1].textRev
    ensures B.OnlyUs(h, a, k - 1) <==> h[s].gen.token == h[k].gen.token && NothingForeign(h, a, s)
    ensures h[s].gen.token == h[k].gen.token ==> Corpus(h[k - 1]) == Corpus(h[s])
  {
    if a >= 0 {
      OnlyUsSplits(h, a, s, k - 1);
    }
    if h[s].gen.token == h[k - 1].gen.token {
      TextDetermined(h, s, k - 1);
    }
    hide Lawful;
  }

  lemma CheckedLanding(w: World, n: nat, k: nat)
    requires Inv(w) && B.Landed(w.h, w.bench, n, k) && w.bench.issued[n].call.Checked()
    ensures Lawful(w.h) && 0 < k < |w.h| && n in w.bench.sent
    ensures var s := w.bench.sent[n];
      && 0 <= s < k && w.h[k].gen == w.h[k - 1].gen && w.h[s].textRev == w.h[k - 1].textRev
      && w.h[k].textLog == w.h[k - 1].textLog + [Us(n)]
      && (w.bench.issued[n].stamp != "" ==> w.h[s].gen.token == w.h[k].gen.token)
  {
    BenchInv(w);
    hide Lawful, D.Inv, N.Inv, B.LandedOk, B.QueueOk, B.WorkspaceOk, B.PostedOk, B.ReplyOk;
  }

  /** The acknowledgement of a patch of the text, typed with a usable snapshot, brings in nothing foreign. */
  lemma CheckedAcknowledgement(w: World, e: Event)
    requires Inv(w) && TakesOver(w, e) && w.bench.state.queue[0].call.Checked() && w.drafts.core.token != ""
    ensures B.OnlyUs(w.h, w.bench.Seen(), w.bench.reply.at) && w.bench.reply.at < |w.h|
  {
    T.BenchFacts(w);
    BenchInv(w);
    ReplyFacts(w.h, w.drafts.core, w.drafts.shown, w.bench);
    CheckedLanding(w, w.bench.Head(), w.bench.reply.at);
    hide Inv, B.StateOk, B.QueueOk, B.Landed, ClientOk;
    TextDetermined(w.h, w.bench.Seen(), w.bench.reply.at - 1);
    hide Lawful;
  }

  lemma ReplyFacts(h: seq<Version>, c: Core, shown: int, net: B.Net)
    requires B.StateOk(h, c, shown, net) && B.TakesOver(c, net)
    ensures net.Head() < |net.issued| && net.issued[net.Head()] == net.state.queue[0]
    ensures net.state.queue[0].stamp == c.gen.token
    ensures B.Landed(h, net, net.Head(), net.reply.at) && net.sent[net.Head()] == net.Seen()
  {
    hide B.SentOk, B.WorkspaceOk;
  }

  lemma CheckedAcknowledgements(ws: seq<World>, es: seq<Event>, i: nat, b: nat, d: nat)
    requires Run(ws, es) && b <= d <= i < |ws| && |ws| == |es| + 1
    requires forall m | b <= m <= d :: ws[m].drafts.core.gen.token != ""
    ensures OursBetween(ws, es, ws[i].h, b, d) <==> UncheckedOurs(ws, es, ws[i].h, b, d)
  {
    hide Initial, Inv, Segment, B.OnlyUs;
    forall t | b <= t < d && TakesOver(ws[t], es[t]) && ws[t].bench.state.queue[0].call.Checked()
      ensures B.OnlyUs(ws[i].h, ws[t].bench.Seen(), ws[t].bench.reply.at)
    {
      RunOk(ws, es, t);
      T.BenchFacts(ws[t]);
      CheckedAcknowledgement(ws[t], es[t]);
      S.HistoryGrows(ws, es, t, i);
      OnlyUsLater(ws[t].h, ws[i].h, ws[t].bench.Seen(), ws[t].bench.reply.at);
    }
  }

  lemma TakesOverPending(w: World, e: Event)
    requires Inv(w) && TakesOver(w, e)
    ensures w.bench.state.pending > 0
  {
    T.BenchFacts(w);
    hide Inv, Lawful;
  }

  lemma FlowsKept(ws: seq<World>, es: seq<Event>, i: nat, t: nat)
    requires Run(ws, es) && t < |es| && t <= i < |ws| && |ws| == |es| + 1 && Keeps(ws, es, t)
    ensures Flows(ws, es, ws[i].h, t)
  {
    RunOk(ws, es, t);
    hide Initial, Inv, Step, Enabled, Segment, Renewal, Typed, B.TakesOver;
    KeepsDraft(ws, es, t);
    if TakesOver(ws[t], es[t]) {
      TakesOverPending(ws[t], es[t]);
      FlowsWaiting(ws, es, i, t);
    }
  }

  lemma PostedHead(w: World, e: Event)
    requires Inv(w) && T.PostsBench(w, e)
    ensures w.bench.Head() < |w.bench.issued| && w.bench.issued[w.bench.Head()].gen == w.drafts.core.gen
  {
    T.BenchFacts(w);
    hide Inv;
  }

  /** Where a patch of the text came from, where it left, and that it waited in between. */
  lemma SentHistory(ws: seq<World>, es: seq<Event>, i: nat, n: nat) returns (j: nat, d: nat)
    requires Run(ws, es) && i < |ws| && n in ws[i].bench.sent && n < |ws[i].bench.issued|
    ensures j < d < i && T.IssuesBench(es[j]) && |ws[j].bench.issued| == n
    ensures T.PostsBench(ws[d], es[d]) && ws[d].bench.Head() == n && ws[i].bench.sent[n] == ws[d].bench.Seen()
    ensures ws[i].bench.issued[n] == B.BenchWrite(ws[j].drafts.core.gen, ws[j].drafts.core.token, es[j].b.call)
    ensures ws[j].drafts.core.gen == ws[d].drafts.core.gen && Waits(ws, j, d)
  {
    T.BenchStartsEmpty(ws[0]);
    hide Initial, Inv, Step, Enabled, T.PostsBench, Stays, T.IssuesBench;
    d := SentOrigin(ws, es, i, n);
    RunOk(ws, es, d);
    PostedHead(ws[d], es[d]);
    j := T.BenchOrigin(ws, es, d, n);
    IssuedGrows(ws, es, d, i);
    WriteWaits(ws, es, j, d);
  }

  lemma SeenInRange(w: World)
    requires Inv(w)
    ensures -1 <= w.bench.Seen() < |w.h| && w.drafts.core.token == w.drafts.core.gen.token
  {
    T.BenchFacts(w);
    hide Inv, Lawful;
  }

  /** The moment from which the text shown at j counts: that of the take-over, or j itself without a workspace. */
  predicate TextFrom(ws: seq<World>, es: seq<Event>, b: nat, j: nat)
    requires j < |ws| == |es| + 1
  {
    if ws[j].bench.state.workspace.Some? then ShownSince(ws, es, b, j) else b == j
  }

  lemma TextOrigin(ws: seq<World>, es: seq<Event>, i: nat, j: nat) returns (b: nat)
    requires Run(ws, es) && j <= i < |ws|
    ensures |ws| == |es| + 1 && TextFrom(ws, es, b, j) && b <= j && FlowsOn(ws, es, ws[i].h, b, j)
    ensures forall m | b <= m <= j :: ws[m].drafts.core.gen == ws[j].drafts.core.gen
  {
    assert |ws| == |es| + 1;
    hide Initial, Step, Enabled, Segment, Flows, Keeps;
    b := j;
    if ws[j].bench.state.workspace.Some? {
      b := SequencerDraftIsOverlay(ws, es, j);
      forall t | b <= t < j ensures Flows(ws, es, ws[i].h, t) {
        FlowsKept(ws, es, i, t);
      }
    }
  }

  lemma FlowsToSending(ws: seq<World>, es: seq<Event>, i: nat, b: nat, j: nat, d: nat)
    requires Run(ws, es) && b <= j < d <= i < |ws| && |ws| == |es| + 1 && T.IssuesBench(es[j]) && Waits(ws, j, d)
    requires FlowsOn(ws, es, ws[i].h, b, j)
    ensures FlowsOn(ws, es, ws[i].h, b, d)
  {
    hide Initial, Step, Enabled, Segment, Flows, Stays;
    forall t | b <= t < d ensures Flows(ws, es, ws[i].h, t) {
      if t == j {
        assert Segment(ws, es);
        FlowsTyping(ws, es, ws[i].h, j);
      } else if j < t {
        FlowsWaiting(ws, es, i, t);
      }
    }
  }

  /** WHETHER A PATCH OF THE TEXT ERASES A CHANGE OF SOMEBODY ELSE. Version k is the first with the patch, typed at
      step j and sent at step d, over a draft whose text was taken over just before moment b: of the changes of the
      text between the version of that draft and the one the patch was performed upon, all are this client's own if
      and only if the same is true of every acknowledgement taken over since b, and the project is still that of the
      workspace sent. With a usable snapshot the latter always holds, and only acknowledgements of unchecked writes
      matter. */
  lemma NoLostUpdate(ws: seq<World>, es: seq<Event>, i: nat, n: nat, k: nat) returns (b: nat, j: nat, d: nat)
    requires Run(ws, es) && i < |ws| && 0 < k < |ws[i].h|
    requires WriteId(Bench, n) in ws[i].h[k].accepted && WriteId(Bench, n) !in ws[i].h[k - 1].accepted
    requires n < |ws[i].bench.issued| && ws[i].bench.issued[n].call.Checked()
    ensures |ws| == |es| + 1 && b <= j < d < i && T.IssuesBench(es[j]) && |ws[j].bench.issued| == n && TextFrom(ws, es, b, j)
    ensures T.PostsBench(ws[d], es[d]) && ws[d].bench.Head() == n && 0 <= ws[d].bench.Seen() < k
    ensures ws[d].drafts.core.gen == ws[j].drafts.core.gen
    ensures B.OnlyUs(ws[i].h, ws[b].bench.Seen(), k - 1)
      <==> ws[i].h[ws[d].bench.Seen()].gen.token == ws[i].h[k].gen.token && OursBetween(ws, es, ws[i].h, b, d)
    ensures ws[j].drafts.shown >= 0 ==>
      (B.OnlyUs(ws[i].h, ws[b].bench.Seen(), k - 1) <==> UncheckedOurs(ws, es, ws[i].h, b, d))
    ensures ws[i].h[ws[d].bench.Seen()].gen.token == ws[i].h[k].gen.token ==>
      Corpus(ws[i].h[k - 1]) == Corpus(ws[i].h[ws[d].bench.Seen()])
  {
    hide Initial, Inv, Step, Enabled, B.Landed, B.OnlyUs, OursBetween, UncheckedOurs, NothingForeign, Lawful, T.PostsBench, Stays;
    hide TextFrom, FlowsOn;
    RunOk(ws, es, i);
    Q.BenchLanded(ws[i], n, k);
    CheckedLanding(ws[i], n, k);
    j, d := SentHistory(ws, es, i, n);
    b := TextOrigin(ws, es, i, j);
    FlowsToSending(ws, es, i, b, j, d);
    RunOk(ws, es, b);
    SeenInRange(ws[b]);
    S.HistoryGrows(ws, es, b, i);
    SeenChain(ws, es, ws[i].h, b, d);
    Performed(ws[i].h, ws[b].bench.Seen(), ws[d].bench.Seen(), k);
    if ws[j].drafts.shown >= 0 {
      RunOk(ws, es, j);
      SeenInRange(ws[j]);
      Q.LandedStamp(ws[i], n, k);
      S.HistoryGrows(ws, es, j, i);
      Q.TokenThen(ws[j], ws[i], k);
      forall m | b <= m <= d ensures ws[m].drafts.core.gen.token != "" {
        if j < m { S.SameProjectBetween(ws, es, j, m, d); }
      }
      CheckedAcknowledgements(ws, es, i, b, d);
    }
  }

  // ---------------------------------------------------------------- patches of the text alone

  /** This client has issued nothing but patches of the text. */
  predicate OnlyTextPatches(es: seq<Event>) {
    forall t | 0 <= t < |es| && T.IssuesBench(es[t]) :: es[t].b.call.Checked()
  }

  lemma HeadIsTextPatch(ws: seq<World>, es: seq<Event>, t: nat)
    requires Run(ws, es) && OnlyTextPatches(es) && t < |es| && TakesOver(ws[t], es[t])
    ensures ws[t].bench.state.queue[0].call.Checked()
  {
    RunOk(ws, es, t);
    T.BenchFacts(ws[t]);
    T.BenchStartsEmpty(ws[0]);
    hide Initial, Inv, Step, Enabled;
    var j := T.BenchOrigin(ws, es, t, ws[t].bench.Head());
  }

  lemma IssuedTextPatch(ws: seq<World>, es: seq<Event>, i: nat, n: nat)
    requires Run(ws, es) && OnlyTextPatches(es) && i < |ws| && n < |ws[i].bench.issued|
    ensures ws[i].bench.issued[n].call.Checked()
  {
    T.BenchStartsEmpty(ws[0]);
    hide Initial, Step, Enabled;
    var t := T.BenchOrigin(ws, es, i, n);
  }

  /** Before the first usable snapshot only the acknowledgement of an unchecked write can give the page a workspace. */
  lemma UnseenRenewal(w: World, e: Event)
    requires Inv(w) && Enabled(w, e) && w.drafts.shown < 0 && w.bench.state.workspace.None? && Renewal(w, e).Some?
    ensures TakesOver(w, e) && !w.bench.state.queue[0].call.Checked()
  {
    T.BenchFacts(w);
    BenchInv(w);
    if TakesOver(w, e) {
      ReplyFacts(w.h, w.drafts.core, w.drafts.shown, w.bench);
      hide Inv, Lawful, Enabled, B.StateOk, B.QueueOk;
    } else {
      LawfulWellFormed(w.h, w.bench.fetch.value.answer.value);
      hide Inv, Lawful, Enabled, B.StateOk, B.QueueOk;
    }
  }

  lemma UnseenAt(ws: seq<World>, es: seq<Event>, k: nat)
    requires Run(ws, es) && OnlyTextPatches(es) && k < |es| && ws[k].drafts.shown < 0 && ws[k].bench.state.workspace.None?
    ensures ws[k + 1].bench.state.workspace.None?
  {
    RenewalAt(ws, es, k);
    RunOk(ws, es, k);
    S.SegmentAt(ws, es, k);
    if Renewal(ws[k], es[k]).Some? {
      hide Initial, Inv, Step, Enabled, Segment, Renewal, OnlyTextPatches, TakesOver;
      UnseenRenewal(ws[k], es[k]);
      HeadIsTextPatch(ws, es, k);
    } else {
      hide Initial, Inv, Step, Enabled, Segment, Renewal, OnlyTextPatches, TakesOver;
    }
  }

  lemma {:induction false} UnseenWorkspace(ws: seq<World>, es: seq<Event>, i: nat)
    requires Run(ws, es) && OnlyTextPatches(es) && i < |ws| && ws[i].drafts.shown < 0
    ensures ws[i].bench.state.workspace.None?
  {
    StartsWithoutWorkspace(ws, es);
    hide Initial, Step, Enabled, OnlyTextPatches;
    if i > 0 {
      S.ShownAt(ws, es, i - 1);
      UnseenWorkspace(ws, es, i - 1);
      UnseenAt(ws, es, i - 1);
    }
  }

  lemma SnapshotSeen(w: World, u: World)
    requires Inv(w) && Inv(u) && w.drafts.core.gen == u.drafts.core.gen && w.drafts.shown < 0
    ensures u.drafts.shown < 0
  {
    T.BenchFacts(w);
    T.BenchFacts(u);
    if u.drafts.shown >= 0 {
      LawfulWellFormed(u.h, u.drafts.shown);
    }
    hide Inv, Lawful;
  }

  /** A client that issues patches of the text alone erases nothing of anybody else. */
  lemma TextPatchesEraseNothing(ws: seq<World>, es: seq<Event>, i: nat, n: nat, k: nat) returns (b: nat, j: nat)
    requires Run(ws, es) && OnlyTextPatches(es) && i < |ws| && 0 < k < |ws[i].h|
    requires WriteId(Bench, n) in ws[i].h[k].accepted && WriteId(Bench, n) !in ws[i].h[k - 1].accepted
    ensures |ws| == |es| + 1 && b <= j < i && T.IssuesBench(es[j]) && |ws[j].bench.issued| == n
    ensures ShownSince(ws, es, b, j) && ws[j].drafts.shown >= 0 && B.OnlyUs(ws[i].h, ws[b].bench.Seen(), k - 1)
  {
    hide Initial, Inv, Step, Enabled, B.Landed, T.PostsBench, Segment, ShownSince;
    RunOk(ws, es, i);
    Q.BenchLanded(ws[i], n, k);
    Q.LandedStamp(ws[i], n, k);
    T.BenchStartsEmpty(ws[0]);
    IssuedTextPatch(ws, es, i, n);
    var d: nat;
    b, j, d := NoLostUpdate(ws, es, i, n, k);
    if ws[j].drafts.shown < 0 {
      RunOk(ws, es, j);
      RunOk(ws, es, d);
      SnapshotSeen(ws[j], ws[d]);
      UnseenWorkspace(ws, es, d);
      assert false;
    }
    forall m | b <= m < d && TakesOver(ws[m], es[m]) && !ws[m].bench.state.queue[0].call.Checked() ensures false {
      HeadIsTextPatch(ws, es, m);
    }
  }
}

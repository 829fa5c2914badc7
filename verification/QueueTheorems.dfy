/**
 * Project isolation and queue discipline of the Sequencer's writes and of the project notes, and where a latched
 * Sequencer error comes from. SyncTheorems has the same for the Repeater and the Intruder.
 */
module QueueTheorems {
  import opened Basics
  import opened ServerHistory
  import opened ClientState
  import opened ClientServer
  import S = SyncTheorems
  import T = SharedTheorems
  import D = DraftSync
  import N = NotesSync
  import B = BenchSync

  // ---------------------------------------------------------------- who made a version

  lemma HistoryOne(w: World, e: Event)
    requires Enabled(w, e)
    ensures w.h <= Step(w, e).h && |Step(w, e).h| <= |w.h| + 1
  {
    hide D.Step, B.Step, N.Step, D.Enabled, B.Enabled, N.Enabled, B.Refreshed, N.Refreshed, OthersChange, AfterBench;
  }

  /** Every version that was not there at the start was appended by some step m. */
  lemma {:induction false} VersionOrigin(ws: seq<World>, es: seq<Event>, i: nat, k: nat) returns (m: nat)
    requires Segment(ws, es) && i < |ws| && |ws[0].h| <= k < |ws[i].h|
    ensures m < i && |ws[m].h| == k && |ws[m + 1].h| == k + 1 && ws[m + 1].h <= ws[i].h
  {
    hide Step, Enabled;
    HistoryOne(ws[i - 1], es[i - 1]);
    if k < |ws[i - 1].h| {
      m := VersionOrigin(ws, es, i - 1, k);
    } else {
      m := i - 1;
    }
  }

  /** At the start no write of this client has been performed. */
  lemma NothingPerformed(w: World, k: nat)
    requires Initial(w) && k < |w.h|
    ensures w.h[k].accepted == {}
  {
    AcceptedGrows(w.h, k, |w.h| - 1);
    hide Lawful;
  }

  /** A version in which a note first shows up as performed was made by performing it. */
  lemma PerformedBy(w: World, e: Event, n: nat)
    requires Enabled(w, e) && |Step(w, e).h| == |w.h| + 1
    requires WriteId(Notes, n) in Step(w, e).h[|w.h|].accepted && WriteId(Notes, n) !in w.h[|w.h| - 1].accepted
    ensures PerformsNote(w, e, n) && Step(w, e).h[|w.h|].gen == w.h[|w.h| - 1].gen
  {
    hide D.Step, B.Step, N.Step, B.Refreshed, N.Refreshed, AfterBench, Follows, B.Effect;
  }

  /** The step performs note n, which carries the current token. */
  predicate PerformsNote(w: World, e: Event, n: nat) {
    && |w.h| > 0 && e.Note?
    && ((e.n.AcceptNote? && w.notes.state.queue != [] && n == w.notes.Head() && Fits(w.h, w.notes.state.queue[0]))
        || (e.n.AcceptLate? && n < |w.notes.issued| && n == e.n.n && Fits(w.h, w.notes.issued[n])))
  }

  predicate Fits(h: seq<Version>, w: N.NoteWrite)
    requires |h| > 0
  {
    w.stamp == h[|h| - 1].gen.token
  }

  /** Version k is the first with the note, and step m made it. */
  lemma Performed(ws: seq<World>, es: seq<Event>, i: nat, n: nat, k: nat) returns (m: nat)
    requires Run(ws, es) && i < |ws| && 0 < k < |ws[i].h|
    requires WriteId(Notes, n) in ws[i].h[k].accepted && WriteId(Notes, n) !in ws[i].h[k - 1].accepted
    ensures m < i && |ws[m].h| == k && ws[m].h <= ws[i].h && ws[i].h[k].gen == ws[i].h[k - 1].gen
    ensures PerformsNote(ws[m], es[m], n)
  {
    assert Initial(ws[0]) && Segment(ws, es);
    hide Step, Enabled, Initial, PerformsNote;
    if k < |ws[0].h| {
      S.HistoryGrows(ws, es, 0, i);
      NothingPerformed(ws[0], k);
    }
    m := VersionOrigin(ws, es, i, k);
    assert Enabled(ws[m], es[m]) && ws[m + 1] == Step(ws[m], es[m]);
    HistoryOne(ws[m], es[m]);
    PerformedBy(ws[m], es[m], n);
  }

  /** A version with the shown project's token is of the shown project. */
  lemma SameToken(h: seq<Version>, shown: int, k: nat, c: Core)
    requires Lawful(h) && -1 <= shown < |h| && k < |h| && c.gen == GenAt(h, shown) && c.token == c.gen.token
    requires h[k].gen.token == c.token
    ensures h[k].gen == c.gen
  {
    LawfulWellFormed(h, k);
    if shown >= 0 {
      if shown <= k { GenerationBlock(h, shown, shown, k); } else { GenerationBlock(h, k, k, shown); }
    }
    hide Lawful;
  }

  lemma TokenOfPerformed(h: seq<Version>, shown: int, k: nat, c: Core)
    requires Lawful(h) && ClientOk(h, c, shown) && k < |h|
    requires c.token == "" || c.token == h[k].gen.token
    ensures shown >= 0 <==> h[k].gen == c.gen
    ensures shown >= 0 <==> c.token != ""
  {
    LawfulWellFormed(h, k);
    if shown >= 0 {
      LawfulWellFormed(h, shown);
      SameToken(h, shown, k, c);
    }
    hide Lawful;
  }

  lemma ClientLater(h: seq<Version>, g: seq<Version>, c: Core, shown: int)
    requires ClientOk(h, c, shown) && h <= g
    ensures ClientOk(g, c, shown)
  {
  }

  /** What was typed in world w and performed in version k of u, where w's token was current, if it had one. */
  lemma TokenThen(w: World, u: World, k: nat)
    requires Inv(w) && Inv(u) && w.h <= u.h && k < |u.h|
    requires w.drafts.core.token == "" || w.drafts.core.token == u.h[k].gen.token
    ensures w.drafts.shown >= 0 <==> u.h[k].gen == w.drafts.core.gen
    ensures w.drafts.shown >= 0 <==> w.drafts.core.token != ""
    ensures u.h[k].gen.token != ""
  {
    NoteQueueFacts(w);
    NoteQueueFacts(u);
    ClientLater(w.h, u.h, w.drafts.core, w.drafts.shown);
    LawfulWellFormed(u.h, k);
    hide Inv, Lawful;
    TokenOfPerformed(u.h, w.drafts.shown, k, w.drafts.core);
  }

  // ---------------------------------------------------------------- Sequencer writes

  lemma BenchLanded(w: World, n: nat, k: nat)
    requires Inv(w) && 0 < k < |w.h| && WriteId(Bench, n) in w.h[k].accepted && WriteId(Bench, n) !in w.h[k - 1].accepted
    ensures B.Landed(w.h, w.bench, n, k)
  {
    assert B.LandedOk(w.h, w.bench);
    hide B.Landed, Lawful;
  }

  lemma LandedStamp(w: World, n: nat, k: nat)
    requires B.Landed(w.h, w.bench, n, k)
    ensures 0 < k < |w.h| && n < |w.bench.issued|
    ensures var stamp := w.bench.issued[n].stamp; stamp == "" || stamp == w.h[k].gen.token
  {
  }

  /** A performed Sequencer write, of whatever kind, is in the project it was typed in exactly when the page had a
      usable snapshot at the time. */
  lemma BenchAcceptedWhereTyped(ws: seq<World>, es: seq<Event>, i: nat, n: nat, k: nat)
    requires Run(ws, es) && i < |ws| && 0 < k < |ws[i].h|
    requires WriteId(Bench, n) in ws[i].h[k].accepted && WriteId(Bench, n) !in ws[i].h[k - 1].accepted
    ensures exists j | 0 <= j < i ::
      && T.IssuesBench(es[j]) && |ws[j].bench.issued| == n
      && (ws[j].drafts.shown >= 0 <==> ws[i].h[k].gen == ws[j].drafts.core.gen)
  {
    hide Inv, Initial, Step, Enabled, B.Landed;
    RunOk(ws, es, i);
    BenchLanded(ws[i], n, k);
    LandedStamp(ws[i], n, k);
    T.BenchStartsEmpty(ws[0]);
    var j := T.BenchOrigin(ws, es, i, n);
    RunOk(ws, es, j);
    S.HistoryGrows(ws, es, j, i);
    TokenThen(ws[j], ws[i], k);
  }

  /** A Sequencer write leaves only if the client has shown its project without interruption since it was typed. */
  lemma BenchPostedWhereTyped(ws: seq<World>, es: seq<Event>, k: nat)
    requires Run(ws, es) && k < |es| && T.PostsBench(ws[k], es[k])
    ensures exists j | 0 <= j < k ::
      && T.IssuesBench(es[j])
      && ws[k].bench.state.queue[0] == B.BenchWrite(ws[j].drafts.core.gen, ws[j].drafts.core.token, es[j].b.call)
      && forall m | j <= m <= k :: ws[m].drafts.core.gen == ws[j].drafts.core.gen
  {
    hide Inv, Initial, Step, Enabled;
    RunOk(ws, es, k);
    T.BenchFacts(ws[k]);
    T.BenchStartsEmpty(ws[0]);
    var j := T.BenchOrigin(ws, es, k, ws[k].bench.Head());
    forall m | j <= m <= k ensures ws[m].drafts.core.gen == ws[j].drafts.core.gen {
      S.SameProjectBetween(ws, es, j, m, k);
    }
  }

  /** sequencerPending counts the issued, unsettled writes, and they settle in issue order. */
  lemma BenchPendingCounts(ws: seq<World>, es: seq<Event>, i: nat)
    requires Run(ws, es) && i < |ws|
    ensures ws[i].bench.state.pending == |ws[i].bench.issued| - ws[i].bench.Head()
    ensures ws[i].bench.state.queue == ws[i].bench.issued[ws[i].bench.Head()..]
  {
    hide Inv, Initial, Step, Enabled;
    RunOk(ws, es, i);
    T.BenchFacts(ws[i]);
  }

  lemma BenchHeadLocal(h: seq<Version>, c: Core, shown: int, net: B.Net, e: B.Event)
    requires |h| > 0 && B.QueueOk(h, shown, net) && B.Enabled(h, c, net, e)
    ensures var net' := B.Step(h, c, shown, net, e);
      && net.Head() <= net'.Head()
      && (net.state.posted || (e == B.Dispatch && B.MayPost(c, net.state)) ==> net.Head() < net'.Head() || net'.state.posted)
  {
    hide Follows, B.Performs;
  }

  lemma BenchHeadStep(w: World, e: Event)
    requires Inv(w) && Enabled(w, e)
    ensures var b, b' := w.bench, Step(w, e).bench;
      && b.Head() <= b'.Head()
      && (b.state.posted || T.PostsBench(w, e) ==> b.Head() < b'.Head() || b'.state.posted)
  {
    T.BenchFacts(w);
    StepBench(w, e);
    if e.Sequencer? {
      BenchHeadLocal(w.h, w.drafts.core, w.drafts.shown, w.bench, e.b);
    }
    hide Inv, Lawful, Step, Enabled, B.Step, B.Enabled, B.QueueOk;
  }

  lemma BenchHeadAt(ws: seq<World>, es: seq<Event>, k: nat)
    requires Run(ws, es) && k < |es|
    ensures ws[k].bench.Head() <= ws[k + 1].bench.Head()
    ensures ws[k].bench.state.posted || T.PostsBench(ws[k], es[k]) ==>
      ws[k].bench.Head() < ws[k + 1].bench.Head() || ws[k + 1].bench.state.posted
  {
    RunOk(ws, es, k);
    S.SegmentAt(ws, es, k);
    hide Initial, Inv, Step, Enabled, Segment;
    BenchHeadStep(ws[k], es[k]);
  }

  lemma {:induction false} BenchHeadMoves(ws: seq<World>, es: seq<Event>, j: nat, k: nat)
    requires Run(ws, es) && j < k < |ws| && T.PostsBench(ws[j], es[j])
    ensures ws[j].bench.Head() < ws[k].bench.Head() || (ws[j].bench.Head() == ws[k].bench.Head() && ws[k].bench.state.posted)
  {
    hide Initial, Inv, Step, Enabled;
    BenchHeadAt(ws, es, k - 1);
    if j + 1 < k {
      BenchHeadMoves(ws, es, j, k - 1);
    }
  }

  /** Sequencer requests leave in issue order, never the same write twice, and never while another is out. */
  lemma BenchPostsInOrder(ws: seq<World>, es: seq<Event>, j: nat, k: nat)
    requires Run(ws, es) && j < k < |es| && T.PostsBench(ws[j], es[j]) && T.PostsBench(ws[k], es[k])
    ensures ws[j].bench.Head() < ws[k].bench.Head() && !ws[k].bench.state.posted
  {
    BenchHeadMoves(ws, es, j, k);
    DispatchNotPosted(ws[k], es[k]);
    hide Initial, Inv, Step;
  }

  lemma DispatchNotPosted(w: World, e: Event)
    requires Enabled(w, e)
    ensures e == Sequencer(B.Dispatch) ==> !w.bench.state.posted
    ensures e == Note(N.Dispatch) ==> w.notes.state.queue != [] && !w.notes.state.posted
  {
    hide D.Enabled, OthersChange;
  }

  /** The request of a posted write carries the revision the handler reads, whatever happens to the workspace later. */
  lemma SentRevision(ws: seq<World>, es: seq<Event>, i: nat)
    requires Run(ws, es) && i < |es| && T.PostsBench(ws[i], es[i])
    ensures var b, sent := ws[i].bench, ws[i + 1].bench.sent;
      b.Head() in sent && sent[b.Head()] < |ws[i].h| && B.SentRev(ws[i].h, sent[b.Head()]) == B.TextRevision(b.state)
  {
    RunOk(ws, es, i);
    T.BenchFacts(ws[i]);
    B.SentIsTextRevision(ws[i].h, ws[i].drafts.core, ws[i].bench);
    PostRecords(ws[i], es[i]);
    hide Inv, Initial, Step, Enabled;
  }

  lemma PostRecords(w: World, e: Event)
    requires Enabled(w, e) && T.PostsBench(w, e)
    ensures Step(w, e).bench.sent == w.bench.sent[w.bench.Head() := w.bench.Seen()]
  {
    hide D.Step, N.Step, AfterBench;
  }

  // ---------------------------------------------------------------- the error latch

  /** The step rejects the request at the head of the queue: it fails, or the server has refused it. */
  predicate RejectsHead(w: World, e: Event) {
    && e.Sequencer? && w.bench.state.queue != []
    && (e.b.Fail? || (e.b.Deliver? && w.bench.reply.Replied? && !w.bench.reply.ok))
  }

  lemma LatchLocal(h: seq<Version>, c: Core, shown: int, net: B.Net, e: B.Event)
    requires |h| > 0 && B.Enabled(h, c, net, e) && net.state.error == "" && B.Step(h, c, shown, net, e).state.error != ""
    ensures net.state.queue != [] && net.state.queue[0].gen == c.gen
    ensures e.Fail? || (e.Deliver? && net.reply.Replied? && !net.reply.ok)
  {
    hide B.Performs, B.FetchApplies;
  }

  /** An error appears where there was none only by rejecting a write of the shown project, which stays shown. */
  lemma LatchStep(w: World, e: Event)
    requires Enabled(w, e) && w.bench.state.error == "" && Step(w, e).bench.state.error != ""
    ensures RejectsHead(w, e) && w.bench.state.queue[0].gen == w.drafts.core.gen && Step(w, e).drafts.core.gen == w.drafts.core.gen
  {
    StepBench(w, e);
    assert e.Sequencer? by { hide Step, Enabled, B.Step, B.Enabled; }
    LatchLocal(w.h, w.drafts.core, w.drafts.shown, w.bench, e.b);
    hide Step, Enabled, B.Step, B.Enabled;
  }

  /** A change of project clears the error. */
  lemma ClearStep(w: World, e: Event)
    requires Inv(w) && Enabled(w, e) && Step(w, e).bench.state.error != ""
    ensures Step(w, e).drafts.core.gen == w.drafts.core.gen
  {
    StepBench(w, e);
    if !Delivers(w, e) { GenerationStep(w, e); }
    hide Step, Enabled, B.Step, B.Enabled, Inv;
  }

  lemma GenerationStep(w: World, e: Event)
    requires Inv(w) && Enabled(w, e) && !Delivers(w, e)
    ensures Step(w, e).drafts.core.gen == w.drafts.core.gen
  {
    if e.Draft? { D.Frame(w.h, w.drafts, e.d); }
    hide Inv, D.Step, D.Enabled, D.Inv, N.Step, N.Enabled, OthersChange, N.Refreshed, B.Refreshed, B.Enabled, B.Step;
  }

  /** An error shown was latched by the failure of a write of the shown project: at some step m without an error
      before it the request of such a write was rejected, and the project and the error have been there ever since. */
  lemma {:induction false} ErrorBelongsToShownProject(ws: seq<World>, es: seq<Event>, i: nat)
    requires Run(ws, es) && i < |ws| && ws[i].bench.state.error != ""
    ensures exists m | 0 <= m < i ::
      && ws[m].bench.state.error == "" && RejectsHead(ws[m], es[m])
      && ws[m].bench.state.queue[0].gen == ws[m].drafts.core.gen
      && (forall k | m < k <= i :: ws[k].bench.state.error != "")
      && (forall k | m <= k <= i :: ws[k].drafts.core.gen == ws[m].drafts.core.gen)
  {
    var m := ErrorOrigin(ws, es, i);
  }

  lemma {:induction false} ErrorOrigin(ws: seq<World>, es: seq<Event>, i: nat) returns (m: nat)
    requires Run(ws, es) && i < |ws| && ws[i].bench.state.error != ""
    ensures m < i && ws[m].bench.state.error == "" && RejectsHead(ws[m], es[m])
    ensures ws[m].bench.state.queue[0].gen == ws[m].drafts.core.gen
    ensures forall k | m < k <= i :: ws[k].bench.state.error != ""
    ensures forall k | m <= k <= i :: ws[k].drafts.core.gen == ws[m].drafts.core.gen
  {
    hide Inv, Initial, Step, Enabled, RejectsHead;
    T.BenchStartsEmpty(ws[0]);
    assert Enabled(ws[i - 1], es[i - 1]) && ws[i] == Step(ws[i - 1], es[i - 1]);
    if ws[i - 1].bench.state.error == "" {
      m := i - 1;
      LatchStep(ws[m], es[m]);
    } else {
      m := ErrorOrigin(ws, es, i - 1);
      RunOk(ws, es, i - 1);
      ClearStep(ws[i - 1], es[i - 1]);
    }
  }

  // ---------------------------------------------------------------- notes

  /** The head of annotateHistory's chain is about to be sent. */
  predicate PostsNote(w: World, e: Event) {
    e == Note(N.Dispatch) && w.notes.state.queue != [] && w.notes.state.queue[0].gen == w.drafts.core.gen
  }

  predicate IssuesNote(e: Event) { e == Note(N.Annotate) }

  lemma NoteIssueStep(w: World, e: Event)
    requires Enabled(w, e)
    ensures Step(w, e).notes.issued ==
      w.notes.issued + if IssuesNote(e) then [N.NoteWrite(w.drafts.core.gen, w.drafts.core.token)] else []
  {
    hide D.Step, B.Step, D.Enabled, B.Enabled, OthersChange, B.Refreshed, N.Performs;
  }

  /** Note n was typed at some step j and carries what the client showed there. */
  lemma {:induction false} NoteOrigin(ws: seq<World>, es: seq<Event>, i: nat, n: nat) returns (j: nat)
    requires Segment(ws, es) && ws[0].notes.issued == [] && i < |ws| && n < |ws[i].notes.issued|
    ensures j < i && IssuesNote(es[j]) && |ws[j].notes.issued| == n
    ensures ws[i].notes.issued[n] == N.NoteWrite(ws[j].drafts.core.gen, ws[j].drafts.core.token)
  {
    hide Step, Enabled;
    NoteIssueStep(ws[i - 1], es[i - 1]);
    if n < |ws[i - 1].notes.issued| {
      j := NoteOrigin(ws, es, i - 1, n);
    } else {
      j := i - 1;
    }
  }

  lemma NotesStartEmpty(w: World)
    requires Initial(w)
    ensures w.notes.issued == []
  {
  }

  lemma NoteQueueFacts(w: World)
    requires Inv(w)
    ensures Lawful(w.h) && ClientOk(w.h, w.drafts.core, w.drafts.shown)
    ensures |w.notes.state.queue| <= |w.notes.issued| && w.notes.state.queue == w.notes.issued[w.notes.Head()..]
  {
  }

  /** A note leaves only if the client has shown its project without interruption since it was typed, and it carries
      that moment's historyGeneration. */
  lemma NotePostedWhereTyped(ws: seq<World>, es: seq<Event>, k: nat)
    requires Run(ws, es) && k < |es| && PostsNote(ws[k], es[k])
    ensures exists j | 0 <= j < k ::
      && IssuesNote(es[j])
      && ws[k].notes.state.queue[0] == N.NoteWrite(ws[j].drafts.core.gen, ws[j].drafts.core.token)
      && forall m | j <= m <= k :: ws[m].drafts.core.gen == ws[j].drafts.core.gen
  {
    hide Inv, Initial, Step, Enabled;
    RunOk(ws, es, k);
    NoteQueueFacts(ws[k]);
    NotesStartEmpty(ws[0]);
    var j := NoteOrigin(ws, es, k, ws[k].notes.Head());
    forall m | j <= m <= k ensures ws[m].drafts.core.gen == ws[j].drafts.core.gen {
      S.SameProjectBetween(ws, es, j, m, k);
    }
  }

  lemma NoteNamed(w: World, e: Event, n: nat)
    requires Inv(w) && PerformsNote(w, e, n)
    ensures n < |w.notes.issued|
  {
    NoteQueueFacts(w);
    hide Inv, Fits;
  }

  /** A performed note carries the token of the version it was performed upon. */
  lemma NotePerformedHere(w: World, u: World, e: Event, n: nat, k: nat, c: Core)
    requires Inv(w) && PerformsNote(w, e, n) && |w.h| == k && w.h <= u.h && k < |u.h|
    requires n < |w.notes.issued| && w.notes.issued[n] == N.NoteWrite(c.gen, c.token)
    ensures c.token == u.h[k - 1].gen.token
  {
    NoteQueueFacts(w);
    hide Inv, Lawful;
  }

  /** A performed note is in the project it was typed in: one typed before the first usable snapshot is refused. */
  lemma NoteAcceptedWhereTyped(ws: seq<World>, es: seq<Event>, i: nat, n: nat, k: nat)
    requires Run(ws, es) && i < |ws| && 0 < k < |ws[i].h|
    requires WriteId(Notes, n) in ws[i].h[k].accepted && WriteId(Notes, n) !in ws[i].h[k - 1].accepted
    ensures exists j | 0 <= j < i ::
      && IssuesNote(es[j]) && |ws[j].notes.issued| == n
      && ws[j].drafts.shown >= 0 && ws[i].h[k].gen == ws[j].drafts.core.gen
  {
    hide Inv, Initial, Step, Enabled, PerformsNote, IssuesNote;
    var m := Performed(ws, es, i, n, k);
    NotesStartEmpty(ws[0]);
    RunOk(ws, es, m);
    NoteNamed(ws[m], es[m], n);
    var j := NoteOrigin(ws, es, m, n);
    NotePerformedHere(ws[m], ws[i], es[m], n, k, ws[j].drafts.core);
    RunOk(ws, es, j);
    RunOk(ws, es, i);
    S.HistoryGrows(ws, es, j, i);
    TokenThen(ws[j], ws[i], k - 1);
  }

  lemma NoteHeadLocal(h: seq<Version>, c: Core, net: N.Net, e: N.Event)
    requires |h| > 0 && |net.state.queue| <= |net.issued| && N.Enabled(h, c, net, e)
    ensures var net' := N.Step(h, c, net, e);
      && net.Head() <= net'.Head()
      && (net.state.posted || (e == N.Dispatch && net.state.queue[0].gen == c.gen) ==> net.Head() < net'.Head() || net'.state.posted)
  {
    hide N.Performs, N.Accepts;
  }

  lemma NoteHeadStep(w: World, e: Event)
    requires Inv(w) && Enabled(w, e)
    ensures var n, n' := w.notes, Step(w, e).notes;
      && n.Head() <= n'.Head()
      && (n.state.posted || PostsNote(w, e) ==> n.Head() < n'.Head() || n'.state.posted)
  {
    NoteQueueFacts(w);
    StepNotes(w, e);
    if e.Note? {
      NoteHeadLocal(w.h, w.drafts.core, w.notes, e.n);
    }
    hide Inv, Lawful, Step, Enabled, N.Step, N.Enabled;
  }

  lemma NoteHeadAt(ws: seq<World>, es: seq<Event>, k: nat)
    requires Run(ws, es) && k < |es|
    ensures ws[k].notes.Head() <= ws[k + 1].notes.Head()
    ensures ws[k].notes.state.posted || PostsNote(ws[k], es[k]) ==>
      ws[k].notes.Head() < ws[k + 1].notes.Head() || ws[k + 1].notes.state.posted
  {
    RunOk(ws, es, k);
    S.SegmentAt(ws, es, k);
    hide Initial, Inv, Step, Enabled, Segment;
    NoteHeadStep(ws[k], es[k]);
  }

  lemma {:induction false} NoteHeadMoves(ws: seq<World>, es: seq<Event>, j: nat, k: nat)
    requires Run(ws, es) && j < k < |ws| && PostsNote(ws[j], es[j])
    ensures ws[j].notes.Head() < ws[k].notes.Head() || (ws[j].notes.Head() == ws[k].notes.Head() && ws[k].notes.state.posted)
  {
    hide Initial, Inv, Step, Enabled;
    NoteHeadAt(ws, es, k - 1);
    if j + 1 < k {
      NoteHeadMoves(ws, es, j, k - 1);
    }
  }

  /** Notes leave in issue order, never the same one twice, and never while another is out. */
  lemma NotePostsInOrder(ws: seq<World>, es: seq<Event>, j: nat, k: nat)
    requires Run(ws, es) && j < k < |es| && PostsNote(ws[j], es[j]) && PostsNote(ws[k], es[k])
    ensures ws[j].notes.Head() < ws[k].notes.Head() && !ws[k].notes.state.posted
  {
    NoteHeadMoves(ws, es, j, k);
    DispatchNotPosted(ws[k], es[k]);
    hide Initial, Inv, Step;
  }

  /** The queue holds the issued, unsettled notes in issue order. */
  lemma NoteQueueIsUnsettled(ws: seq<World>, es: seq<Event>, i: nat)
    requires Run(ws, es) && i < |ws|
    ensures ws[i].notes.state.queue == ws[i].notes.issued[ws[i].notes.Head()..]
  {
    hide Inv, Initial, Step, Enabled;
    RunOk(ws, es, i);
    NoteQueueFacts(ws[i]);
  }

  /** However a note ends, the next one of the shown project can leave. */
  lemma NoteFailureDoesNotBlock(ws: seq<World>, es: seq<Event>, i: nat)
    requires Run(ws, es) && i < |es| && es[i] in {Note(N.DeliverNote), Note(N.FailNote)}
    requires |ws[i].notes.state.queue| > 1 && ws[i].notes.state.queue[1].gen == ws[i].drafts.core.gen
    ensures Enabled(ws[i + 1], Note(N.Dispatch)) && PostsNote(ws[i + 1], Note(N.Dispatch))
  {
    hide Inv, Initial, D.Step, B.Step;
    assert Enabled(ws[i], es[i]) && ws[i + 1] == Step(ws[i], es[i]);
  }
}

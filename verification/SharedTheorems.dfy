/**
 * What the Sequencer queue and the project notes achieve while other clients edit the same project.
 */
module SharedTheorems {
  import opened Basics
  import opened ServerHistory
  import opened ClientState
  import opened ClientServer
  import S = SyncTheorems
  import D = DraftSync
  import N = NotesSync
  import B = BenchSync

  // ---------------------------------------------------------------- Sequencer: where a write comes from

  predicate IssuesBench(e: Event) {
    e.Sequencer? && e.b.Issue?
  }

  lemma BenchIssueStep(w: World, e: Event)
    requires Enabled(w, e)
    ensures Step(w, e).bench.issued == w.bench.issued +
      if IssuesBench(e) then [B.BenchWrite(w.drafts.core.gen, w.drafts.core.token, e.b.call)] else []
  {
    hide D.Step, N.Step, D.Enabled, N.Enabled, OthersChange, N.Refreshed, B.Performs;
  }

  /** Sequencer write n was typed at some step j, and stamped with what the client showed there. */
  lemma {:induction false} BenchOrigin(ws: seq<World>, es: seq<Event>, i: nat, n: nat) returns (j: nat)
    requires Segment(ws, es) && ws[0].bench.issued == [] && i < |ws| && n < |ws[i].bench.issued|
    ensures j < i && IssuesBench(es[j]) && |ws[j].bench.issued| == n
    ensures ws[i].bench.issued[n] == B.BenchWrite(ws[j].drafts.core.gen, ws[j].drafts.core.token, es[j].b.call)
  {
    hide Step, Enabled;
    BenchIssueStep(ws[i - 1], es[i - 1]);
    if n < |ws[i - 1].bench.issued| {
      j := BenchOrigin(ws, es, i - 1, n);
    } else {
      j := i - 1;
    }
  }

  lemma BenchFacts(w: World)
    requires Inv(w)
    ensures Lawful(w.h) && B.QueueOk(w.h, w.drafts.shown, w.bench)
    ensures B.WorkspaceOk(w.h, w.drafts.core, w.bench)
    ensures ClientOk(w.h, w.drafts.core, w.drafts.shown)
  {
  }

  lemma BenchStartsEmpty(w: World)
    requires Initial(w)
    ensures w.bench.issued == [] && w.bench.sent == map[] && w.bench.state.error == ""
  {
  }

  // ---------------------------------------------------------------- Sequencer: the local draft

  /** The step replaces a local draft by another one. */
  predicate DraftChanges(w: World, e: Event)
    requires Enabled(w, e)
  {
    var s, s' := w.bench.state, Step(w, e).bench.state;
    s.workspace.Some? && s'.workspace.Some? && s'.workspace.value.draft != s.workspace.value.draft
  }

  lemma DraftLocal(h: seq<Version>, c: Core, shown: int, net: B.Net, e: B.Event)
    requires |h| > 0 && B.Enabled(h, c, net, e) && net.state.pending == |net.state.queue|
    requires var s' := B.Step(h, c, shown, net, e).state;
      net.state.workspace.Some? && s'.workspace.Some? && s'.workspace.value.draft != net.state.workspace.value.draft
    ensures var s' := B.Step(h, c, shown, net, e).state;
      || (e.Issue? && e.optimistic && s'.workspace.value.draft == net.state.workspace.value.draft + e.call.Fields())
      || s'.pending == 0
  {
    hide B.Performs;
  }

  lemma DraftStep(w: World, e: Event)
    requires Enabled(w, e) && DraftChanges(w, e) && w.bench.state.pending == |w.bench.state.queue|
    ensures
      || (IssuesBench(e) && e.b.optimistic
          && Step(w, e).bench.state.workspace.value.draft == w.bench.state.workspace.value.draft + e.b.call.Fields())
      || Step(w, e).bench.state.pending == 0
  {
    StepBench(w, e);
    assert e.Sequencer? by { hide Step, Enabled, B.Step, B.Enabled; }
    DraftLocal(w.h, w.drafts.core, w.drafts.shown, w.bench, e.b);
    hide Step, Enabled, B.Step, B.Enabled;
  }

  /** Keystrokes outlive acknowledgements: as long as a Sequencer write is pending afterwards, the local draft
      changes only by patches laid over it. */
  lemma KeystrokesKept(ws: seq<World>, es: seq<Event>, i: nat)
    requires Run(ws, es) && i < |es| && DraftChanges(ws[i], es[i]) && ws[i + 1].bench.state.pending != 0
    ensures IssuesBench(es[i]) && es[i].b.optimistic
    ensures ws[i + 1].bench.state.workspace.value.draft == ws[i].bench.state.workspace.value.draft + es[i].b.call.Fields()
  {
    RunOk(ws, es, i);
    BenchFacts(ws[i]);
    hide Inv, Initial, Step, Enabled, Lawful;
    DraftStep(ws[i], es[i]);
  }

  // ---------------------------------------------------------------- Sequencer: the error latch

  /** The head of the Sequencer chain is about to be posted. */
  predicate PostsBench(w: World, e: Event) {
    e == Sequencer(B.Dispatch) && w.bench.state.queue != [] && B.MayPost(w.drafts.core, w.bench.state)
  }

  lemma ErrorLocal(h: seq<Version>, c: Core, shown: int, net: B.Net, e: B.Event)
    requires |h| > 0 && B.Enabled(h, c, net, e) && net.state.error != "" && !e.ReloadWorkspace?
    ensures B.Step(h, c, shown, net, e).state.error != ""
  {
    hide B.Performs, B.FetchApplies;
  }

  lemma ErrorStep(w: World, e: Event)
    requires Enabled(w, e)
    ensures var s, s' := w.bench.state, Step(w, e).bench.state;
      s.error != "" && e != Sequencer(B.ReloadWorkspace) && Step(w, e).drafts.core.gen == w.drafts.core.gen ==> s'.error != ""
  {
    StepBench(w, e);
    if e.Sequencer? && w.bench.state.error != "" && e.b != B.ReloadWorkspace {
      ErrorLocal(w.h, w.drafts.core, w.drafts.shown, w.bench, e.b);
    }
    hide Step, Enabled, B.Step, B.Enabled;
  }

  /** After a failure no Sequencer write leaves until the user reloads or the project changes. */
  lemma {:induction false} FailureBlocks(ws: seq<World>, es: seq<Event>, s: nat, i: nat)
    requires Segment(ws, es) && s <= i < |es| && ws[s].bench.state.error != ""
    requires forall m | s <= m < i :: es[m] != Sequencer(B.ReloadWorkspace)
    requires forall m | s < m <= i :: ws[m].drafts.core.gen == ws[m - 1].drafts.core.gen
    ensures ws[i].bench.state.error != "" && !PostsBench(ws[i], es[i])
  {
    if s < i {
      FailureBlocks(ws, es, s, i - 1);
      hide Step, Enabled;
      ErrorStep(ws[i - 1], es[i - 1]);
      assert ws[i] == Step(ws[i - 1], es[i - 1]);
    }
  }

  // ---------------------------------------------------------------- notes

  /** The loaded notes are the server's notes at the loaded revision, in the project that is shown. */
  lemma NotesCoherent(ws: seq<World>, es: seq<Event>, i: nat)
    requires Run(ws, es) && i < |ws| && ws[i].notes.state.loaded.Some?
    ensures exists k | 0 <= k < |ws[i].h| ::
      && ws[i].h[k].gen == ws[i].drafts.core.gen
      && ws[i].h[k].notesRev == ws[i].notes.state.loaded.value
    ensures forall k | 0 <= k < |ws[i].h| && ws[i].h[k].gen == ws[i].drafts.core.gen
                       && ws[i].h[k].notesRev == ws[i].notes.state.loaded.value ::
      ws[i].h[k].notes == ws[i].notes.state.notes
  {
    RunOk(ws, es, i);
    NoteFacts(ws[i]);
    var h, a, shown := ws[i].h, ws[i].notes.loadedAt, ws[i].drafts.shown;
    hide Run, Inv, Lawful;
    if a <= shown { GenerationBlock(h, a, a, shown); } else { GenerationBlock(h, shown, shown, a); }
    forall k | 0 <= k < |h| && h[k].gen == ws[i].drafts.core.gen && h[k].notesRev == ws[i].notes.state.loaded.value
      ensures h[k].notes == ws[i].notes.state.notes
    {
      if a <= k { NotesDetermined(h, a, k); } else { NotesDetermined(h, k, a); }
    }
  }

  lemma NoteFacts(w: World)
    requires Inv(w)
    ensures Lawful(w.h) && N.Coherent(w.h, w.drafts.shown, w.notes) && ClientOk(w.h, w.drafts.core, w.drafts.shown)
  {
  }

  /** The version an answer about notes was read off, when `e` delivers one. */
  function NoteAnswer(w: World, e: Event): Option<nat> {
    if e == Note(N.DeliverNote) && w.notes.reply.Some? then w.notes.reply
    else if e.Note? && e.n.DeliverFetch? && e.n.k < |w.notes.fetches| then w.notes.fetches[e.n.k].answer
    else None
  }

  /** Answers about notes are delivered in the order in which the server gave them. */
  predicate NotesInOrder(ws: seq<World>, es: seq<Event>) {
    |ws| == |es| + 1 &&
    forall j, k | 0 <= j < k < |es| && NoteAnswer(ws[j], es[j]).Some? && NoteAnswer(ws[k], es[k]).Some? ::
      NoteAnswer(ws[j], es[j]).value <= NoteAnswer(ws[k], es[k]).value
  }

  lemma LoadedLocal(h: seq<Version>, c: Core, net: N.Net, e: N.Event)
    requires |h| > 0 && N.Enabled(h, c, net, e)
    ensures var net' := N.Step(h, c, net, e);
      net'.state.loaded.Some? ==>
        || (net.state.loaded.Some? && net'.loadedAt == net.loadedAt)
        || (e == N.DeliverNote && net.reply == Some(net'.loadedAt))
        || (e.DeliverFetch? && e.k < |net.fetches| && net.fetches[e.k].answer == Some(net'.loadedAt))
  {
    hide N.Performs;
  }

  lemma LoadedStep(w: World, e: Event)
    requires Enabled(w, e)
    ensures Step(w, e).notes.state.loaded.Some? ==>
      || (w.notes.state.loaded.Some? && Step(w, e).notes.loadedAt == w.notes.loadedAt)
      || NoteAnswer(w, e) == Some(Step(w, e).notes.loadedAt)
  {
    StepNotes(w, e);
    if e.Note? {
      LoadedLocal(w.h, w.drafts.core, w.notes, e.n);
    }
    hide Step, Enabled, N.Step, N.Enabled;
  }

  lemma {:induction false} LoadedOrigin(ws: seq<World>, es: seq<Event>, i: nat) returns (j: nat)
    requires Segment(ws, es) && ws[0].notes.state.loaded.None? && i < |ws| && ws[i].notes.state.loaded.Some?
    ensures j < i && NoteAnswer(ws[j], es[j]) == Some(ws[i].notes.loadedAt)
  {
    hide Step, Enabled;
    LoadedStep(ws[i - 1], es[i - 1]);
    if NoteAnswer(ws[i - 1], es[i - 1]) == Some(ws[i].notes.loadedAt) {
      j := i - 1;
    } else {
      j := LoadedOrigin(ws, es, i - 1);
    }
  }

  lemma NotesStartUnloaded(w: World)
    requires Initial(w)
    ensures w.notes.state.loaded.None?
  {
  }

  lemma LoweredLocal(h: seq<Version>, c: Core, net: N.Net, e: N.Event)
    requires |h| > 0 && N.Enabled(h, c, net, e) && N.Lowered(net.state, N.Step(h, c, net, e).state)
    ensures e.DeliverNote? || e.DeliverFetch?
  {
    hide N.Performs;
  }

  lemma NotesStep(w: World, e: Event)
    requires Inv(w) && Enabled(w, e) && N.Lowered(w.notes.state, Step(w, e).notes.state)
    ensures NoteAnswer(w, e).Some? && NoteAnswer(w, e).value < w.notes.loadedAt
  {
    NoteFacts(w);
    NoteInv(w);
    StepNotes(w, e);
    assert e.Note? by { hide Step, Enabled, N.Step, N.Enabled; }
    LoweredLocal(w.h, w.drafts.core, w.notes, e.n);
    hide Inv, Lawful, N.Inv, ClientOk, Step, Enabled, N.Step, N.Lowered;
    if e.n.DeliverNote? {
      N.AckLowersExactly(w.h, w.drafts.core, w.drafts.shown, w.notes);
    } else {
      N.FetchNeverLowers(w.h, w.drafts.core, w.drafts.shown, w.notes, e.n.k);
    }
  }

  lemma NoteInv(w: World)
    requires Inv(w)
    ensures N.Inv(w.h, w.drafts.shown, w.notes)
  {
  }

  /** With answers about notes delivered in the server's order, the loaded revision never goes back
      within a project, whatever the snapshots do to bootInfo.annotationsRevision meanwhile. */
  lemma NotesNeverGoBack(ws: seq<World>, es: seq<Event>, i: nat)
    requires Run(ws, es) && i < |es| && NotesInOrder(ws, es)
    ensures !N.Lowered(ws[i].notes.state, ws[i + 1].notes.state)
  {
    if N.Lowered(ws[i].notes.state, ws[i + 1].notes.state) {
      RunOk(ws, es, i);
      NotesStartUnloaded(ws[0]);
      hide Inv, Initial, Step, Enabled, NoteAnswer;
      NotesStep(ws[i], es[i]);
      var j := LoadedOrigin(ws, es, i);
    }
  }
}

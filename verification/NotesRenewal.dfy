/**
 * When the project notes are fetched and renewed, told by the events of the run, and what a change of project leaves.
 */
module NotesRenewal {
  import opened Basics
  import opened ServerHistory
  import opened ClientState
  import opened ClientServer
  import S = SyncTheorems
  import T = SharedTheorems
  import Q = QueueTheorems
  import D = DraftSync
  import N = NotesSync
  import B = BenchSync

  /** What the page is asked for when it fetches notes: the project shown and the revision announced for it. */
  type Key = (Generation, nat)

  function KeyOf(w: World): Key { (w.drafts.core.gen, w.notes.state.bootRev) }

  // ---------------------------------------------------------------- the answer of a note

  /** The answer of a performed note of the project shown is delivered. */
  predicate Acknowledges(w: World, e: Event) {
    e == Note(N.DeliverNote) && w.notes.state.queue != [] && w.notes.state.queue[0].gen == w.drafts.core.gen
  }

  lemma AcknowledgedLocal(h: seq<Version>, c: Core, net: N.Net)
    requires |h| > 0 && N.Enabled(h, c, net, N.DeliverNote)
    requires net.state.queue[0].gen == c.gen ==> h[net.reply.value].gen.token == c.token
    ensures var s, s', v := net.state, N.Step(h, c, net, N.DeliverNote).state, h[net.reply.value];
      if s.queue[0].gen == c.gen
      then s'.notes == v.notes && s'.loaded == Some(v.notesRev) && s'.bootRev == v.notesRev && !s'.error
      else s'.notes == s.notes && s'.loaded == s.loaded && s'.bootRev == s.bootRev && s'.error == s.error
  {
  }

  lemma AnswerToken(w: World)
    requires Inv(w) && Enabled(w, Note(N.DeliverNote))
    ensures w.notes.state.queue != [] && w.notes.reply.Some? && w.notes.reply.value < |w.h|
    ensures w.notes.state.queue[0].gen == w.drafts.core.gen ==> w.h[w.notes.reply.value].gen.token == w.drafts.core.token
  {
    hide D.Inv, B.Inv, Lawful, N.Coherent, N.RevisionsOk, N.FetchesOk, N.Performs, OthersChange;
    D.ClientFrame(w.h, w.drafts);
  }

  /** What the answer of a performed note does: if the project it was typed in is still shown, the page takes over notes and
      revision of the version it was read off, without any further condition; otherwise nothing. */
  lemma AcknowledgedExactly(ws: seq<World>, es: seq<Event>, i: nat)
    requires Run(ws, es) && i < |es| && es[i] == Note(N.DeliverNote)
    ensures ws[i].notes.state.queue != [] && ws[i].notes.reply.Some? && ws[i].notes.reply.value < |ws[i].h|
    ensures var s, s', v := ws[i].notes.state, ws[i + 1].notes.state, ws[i].h[ws[i].notes.reply.value];
      if s.queue[0].gen == ws[i].drafts.core.gen
      then s'.notes == v.notes && s'.loaded == Some(v.notesRev) && s'.bootRev == v.notesRev && !s'.error
      else s'.notes == s.notes && s'.loaded == s.loaded && s'.bootRev == s.bootRev && s'.error == s.error
  {
    RunOk(ws, es, i);
    S.SegmentAt(ws, es, i);
    StepNotes(ws[i], es[i]);
    AnswerToken(ws[i]);
    hide Initial, Inv, Segment, Step, Enabled, N.Step, N.Enabled;
    AcknowledgedLocal(ws[i].h, ws[i].drafts.core, ws[i].notes);
  }

  // ---------------------------------------------------------------- the epoch and the pending key

  lemma NoteLocal(h: seq<Version>, c: Core, net: N.Net, e: N.Event)
    requires |h| > 0 && N.Enabled(h, c, net, e)
    ensures var s, s' := net.state, N.Step(h, c, net, e).state;
      && s'.epoch == s.epoch + (if e.DeliverNote? && s.queue != [] && s.queue[0].gen == c.gen then 1 else 0)
      && s'.pendingKey == (if e.StartFetch? then Some((c.gen, s.bootRev))
                           else if (e.DeliverFetch? || e.FailFetch?) && e.k < |net.fetches|
                                   && s.pendingKey == Some((net.fetches[e.k].gen, net.fetches[e.k].rev)) then None
                           else s.pendingKey)
      && (!e.DeliverNote? ==> s'.bootRev == s.bootRev)
  {
    hide N.Performs;
  }

  /** The fetch that ends in this step. */
  function Ended(w: World, e: Event): Option<N.Fetch> {
    if e.Note? && (e.n.DeliverFetch? || e.n.FailFetch?) && e.n.k < |w.notes.fetches| then Some(w.notes.fetches[e.n.k]) else None
  }

  /** The step ends a fetch that asked for this key. */
  predicate Ends(w: World, e: Event, key: Key) {
    Ended(w, e).Some? && (Ended(w, e).value.gen, Ended(w, e).value.rev) == key
  }

  predicate StartsFetch(e: Event) { e.Note? && e.n.StartFetch? }

  lemma NoteStep(w: World, e: Event)
    requires Enabled(w, e)
    ensures var s, s' := w.notes.state, Step(w, e).notes.state;
      && s'.epoch == s.epoch + (if Acknowledges(w, e) then 1 else 0)
      && s'.pendingKey == (if StartsFetch(e) then Some(KeyOf(w))
                           else if s.pendingKey.Some? && Ends(w, e, s.pendingKey.value) then None else s.pendingKey)
  {
    StepNotes(w, e);
    if e.Note? {
      NoteLocal(w.h, w.drafts.core, w.notes, e.n);
    }
    hide Step, Enabled, N.Step, N.Enabled;
  }

  /** The fetch started last, at j, asked for this key, and no fetch that did has ended since. */
  predicate AskedAt(ws: seq<World>, es: seq<Event>, j: nat, i: nat, key: Key)
    requires i < |ws| == |es| + 1
  {
    && j < i && StartsFetch(es[j]) && KeyOf(ws[j]) == key
    && forall m | j < m < i :: !StartsFetch(es[m]) && !Ends(ws[m], es[m], key)
  }

  predicate Asked(ws: seq<World>, es: seq<Event>, i: nat, key: Key)
    requires i < |ws| == |es| + 1
  {
    exists j | 0 <= j < i :: AskedAt(ws, es, j, i, key)
  }

  lemma AskedLater(ws: seq<World>, es: seq<Event>, i: nat, key: Key)
    requires i + 1 < |ws| == |es| + 1
    ensures Asked(ws, es, i + 1, key)
      <==> (if StartsFetch(es[i]) then KeyOf(ws[i]) == key else Asked(ws, es, i, key) && !Ends(ws[i], es[i], key))
  {
    hide StartsFetch, Ends, KeyOf;
    if Asked(ws, es, i + 1, key) {
      var j: nat :| j <= i && AskedAt(ws, es, j, i + 1, key);
      assert j < i ==> AskedAt(ws, es, j, i, key);
    }
    if StartsFetch(es[i]) && KeyOf(ws[i]) == key {
      assert AskedAt(ws, es, i, i + 1, key);
    }
    if !StartsFetch(es[i]) && Asked(ws, es, i, key) && !Ends(ws[i], es[i], key) {
      var j: nat :| j < i && AskedAt(ws, es, j, i, key);
      assert AskedAt(ws, es, j, i + 1, key);
    }
  }

  lemma {:induction false} PendingKeyIs(ws: seq<World>, es: seq<Event>, i: nat, key: Key)
    requires Run(ws, es) && i < |ws| && |ws| == |es| + 1
    ensures ws[i].notes.state.pendingKey == Some(key) <==> Asked(ws, es, i, key)
  {
    hide Inv, Initial, Step, Enabled, Ends, KeyOf, StartsFetch;
    if i == 0 {
      NoteStarts(ws[0]);
    } else {
      PendingKeyIs(ws, es, i - 1, key);
      AskedLater(ws, es, i - 1, key);
      S.SegmentAt(ws, es, i - 1);
      NoteStep(ws[i - 1], es[i - 1]);
    }
  }

  lemma NoteStarts(w: World)
    requires Initial(w)
    ensures w.notes.state.pendingKey.None? && w.notes.fetches == [] && w.notes.state.retryAt == 0 && !w.notes.state.error
  {
    hide Lawful, D.Start, B.Start;
  }

  // ---------------------------------------------------------------- when notes are fetched

  /** EXACTLY WHEN NOTES ARE FETCHED: the page is connected, a revision is announced and is not the one loaded, the fetch
      started last is not still out for the same project and revision, and the delay after a failure is over. */
  lemma FetchedExactly(ws: seq<World>, es: seq<Event>, i: nat, now: int)
    requires Run(ws, es) && i < |ws|
    ensures |ws| == |es| + 1
    ensures var s := ws[i].notes.state;
      Enabled(ws[i], Note(N.StartFetch(now)))
      <==> && ws[i].drafts.core.connected && s.bootRev != 0 && (s.loaded.None? || s.loaded.value != s.bootRev)
           && !Asked(ws, es, i, KeyOf(ws[i])) && now >= s.retryAt
  {
    RunOk(ws, es, i);
    PendingKeyIs(ws, es, i, KeyOf(ws[i]));
    T.NoteFacts(ws[i]);
    hide Inv, Initial, Step, Segment, Asked, Lawful;
  }

  // ---------------------------------------------------------------- the answer of a fetch

  /** Where fetch k of the next state comes from: started by this step (n < 0), or fetch n of this state. */
  lemma FetchesLocal(h: seq<Version>, c: Core, net: N.Net, e: N.Event, k: nat) returns (n: int)
    requires |h| > 0 && N.Enabled(h, c, net, e) && k < |N.Step(h, c, net, e).fetches|
    ensures var f := N.Step(h, c, net, e).fetches[k];
      if n < 0 then e.StartFetch? && f.gen == c.gen && f.rev == net.state.bootRev && f.epoch == net.state.epoch
      else n < |net.fetches| && SameFetch(net.fetches[n], f)
  {
    hide N.Performs, N.Accepts;
    n := if k >= |net.fetches| then -1 else if (e.DeliverFetch? || e.FailFetch?) && k >= e.k then k + 1 else k;
  }

  predicate SameFetch(f: N.Fetch, g: N.Fetch) { f.gen == g.gen && f.rev == g.rev && f.epoch == g.epoch }

  /** The fetch started at j remembers the project and the revision of that moment, and how many notes had been acknowledged. */
  predicate StartedAt(ws: seq<World>, es: seq<Event>, j: nat, i: nat, f: N.Fetch)
    requires i < |ws| == |es| + 1
  {
    j < i && StartsFetch(es[j]) && (f.gen, f.rev) == KeyOf(ws[j]) && f.epoch == ws[j].notes.state.epoch
  }

  lemma FetchesStep(w: World, e: Event, k: nat) returns (n: int)
    requires Enabled(w, e) && k < |Step(w, e).notes.fetches|
    ensures var f := Step(w, e).notes.fetches[k];
      if n < 0 then StartsFetch(e) && (f.gen, f.rev) == KeyOf(w) && f.epoch == w.notes.state.epoch
      else n < |w.notes.fetches| && SameFetch(w.notes.fetches[n], f)
  {
    StepNotes(w, e);
    if e.Note? {
      n := FetchesLocal(w.h, w.drafts.core, w.notes, e.n, k);
    } else {
      assert Step(w, e).notes.fetches == w.notes.fetches by { hide Step, Enabled; }
      n := k;
    }
    hide Step, Enabled, N.Step, N.Enabled;
  }

  lemma {:induction false} FetchOrigin(ws: seq<World>, es: seq<Event>, i: nat, k: nat) returns (j: nat)
    requires Run(ws, es) && i < |ws| && k < |ws[i].notes.fetches|
    ensures |ws| == |es| + 1 && StartedAt(ws, es, j, i, ws[i].notes.fetches[k])
  {
    hide Inv, Initial, Step, Enabled;
    NoteStarts(ws[0]);
    S.SegmentAt(ws, es, i - 1);
    var n := FetchesStep(ws[i - 1], es[i - 1], k);
    if n >= 0 {
      j := FetchOrigin(ws, es, i - 1, n);
    } else {
      j := i - 1;
    }
  }

  lemma {:induction false} EpochCounts(ws: seq<World>, es: seq<Event>, j: nat, i: nat)
    requires Segment(ws, es) && j <= i < |ws| && |ws| == |es| + 1
    ensures ws[j].notes.state.epoch <= ws[i].notes.state.epoch
    ensures ws[j].notes.state.epoch == ws[i].notes.state.epoch <==> forall m | j <= m < i :: !Acknowledges(ws[m], es[m])
  {
    hide Step, Enabled, Acknowledges;
    if j < i {
      EpochCounts(ws, es, j, i - 1);
      S.SegmentAt(ws, es, i - 1);
      NoteStep(ws[i - 1], es[i - 1]);
    }
  }

  lemma AnswerLocal(h: seq<Version>, c: Core, net: N.Net, k: nat)
    requires |h| > 0 && N.Enabled(h, c, net, N.DeliverFetch(k)) && net.fetches[k].rev != 0
    ensures var f, s, s' := net.fetches[k], net.state, N.Step(h, c, net, N.DeliverFetch(k)).state;
      var v := h[f.answer.value];
      && s'.bootRev == s.bootRev && s'.retryAt == s.retryAt
      && if f.epoch == s.epoch && f.gen == c.gen && v.gen.token == c.token && f.rev == s.bootRev && v.notesRev == f.rev
         then s'.notes == v.notes && s'.loaded == Some(v.notesRev) && !s'.error
         else s'.notes == s.notes && s'.loaded == s.loaded && s'.error == s.error
  {
  }

  lemma FetchFacts(w: World, k: nat)
    requires Inv(w) && k < |w.notes.fetches|
    ensures w.notes.fetches[k].rev != 0
  {
    hide Lawful, D.Inv, B.Inv, N.Coherent, N.RevisionsOk, N.WritesOk;
  }

  lemma AnswerStep(w: World, k: nat)
    requires Inv(w) && Enabled(w, Note(N.DeliverFetch(k)))
    ensures k < |w.notes.fetches| && w.notes.fetches[k].answer.Some? && w.notes.fetches[k].answer.value < |w.h|
    ensures var f, s, s', c := w.notes.fetches[k], w.notes.state, Step(w, Note(N.DeliverFetch(k))).notes.state, w.drafts.core;
      var v := w.h[f.answer.value];
      && s'.bootRev == s.bootRev && s'.retryAt == s.retryAt
      && if f.epoch == s.epoch && f.gen == c.gen && v.gen == c.gen && f.rev == s.bootRev && v.notesRev == f.rev
         then s'.notes == v.notes && s'.loaded == Some(v.notesRev) && !s'.error
         else s'.notes == s.notes && s'.loaded == s.loaded && s'.error == s.error
  {
    T.NoteFacts(w);
    AnswerOf(w, k);
    FetchFacts(w, k);
    StepNotes(w, Note(N.DeliverFetch(k)));
    AnswerLocal(w.h, w.drafts.core, w.notes, k);
    hide Inv, Lawful, Step, Enabled, N.Step, N.Enabled, N.Coherent;
    var a := w.notes.fetches[k].answer.value;
    if w.h[a].gen.token == w.drafts.core.token {
      Q.SameToken(w.h, w.drafts.shown, a, w.drafts.core);
    }
  }

  lemma AnswerOf(w: World, k: nat)
    requires Enabled(w, Note(N.DeliverFetch(k)))
    ensures k < |w.notes.fetches| && w.notes.fetches[k].answer.Some? && w.notes.fetches[k].answer.value < |w.h|
  {
  }

  /** From j to i the page shows one project and takes over no answer of a note, and the revision announced is the same. */
  predicate Quiet(ws: seq<World>, es: seq<Event>, j: nat, i: nat)
    requires j <= i < |ws| == |es| + 1
  {
    && (forall m | j <= m <= i :: ws[m].drafts.core.gen == ws[i].drafts.core.gen)
    && (forall m | j <= m < i :: !Acknowledges(ws[m], es[m]))
    && ws[j].notes.state.bootRev == ws[i].notes.state.bootRev
  }

  lemma QuietExactly(ws: seq<World>, es: seq<Event>, j: nat, i: nat)
    requires Run(ws, es) && j <= i < |ws| && |ws| == |es| + 1
    ensures Quiet(ws, es, j, i)
      <==> KeyOf(ws[j]) == KeyOf(ws[i]) && ws[j].notes.state.epoch == ws[i].notes.state.epoch
  {
    hide Inv, Initial, Step, Enabled, Acknowledges;
    EpochCounts(ws, es, j, i);
    if ws[j].drafts.core.gen == ws[i].drafts.core.gen {
      forall m | j <= m <= i ensures ws[m].drafts.core.gen == ws[i].drafts.core.gen {
        S.SameProjectBetween(ws, es, j, m, i);
      }
    }
  }

  /** EXACTLY WHEN FETCHED NOTES ARE SHOWN: if the answer is of the project shown and of the revision announced, and since the
      fetch was started the project has been shown all along, the same revision is announced, and no answer of a note has been
      taken over. Then notes and loaded revision are those of the version the answer was read off; otherwise they stay. */
  lemma RenewedExactly(ws: seq<World>, es: seq<Event>, i: nat, k: nat) returns (j: nat)
    requires Run(ws, es) && i < |es| && es[i] == Note(N.DeliverFetch(k))
    ensures |ws| == |es| + 1 && k < |ws[i].notes.fetches| && StartedAt(ws, es, j, i, ws[i].notes.fetches[k])
    ensures ws[i].notes.fetches[k].answer.Some? && ws[i].notes.fetches[k].answer.value < |ws[i].h|
    ensures var s, s', v := ws[i].notes.state, ws[i + 1].notes.state, ws[i].h[ws[i].notes.fetches[k].answer.value];
      if v.gen == ws[i].drafts.core.gen && v.notesRev == s.bootRev && Quiet(ws, es, j, i)
      then s'.notes == v.notes && s'.loaded == Some(v.notesRev) && !s'.error
      else s'.notes == s.notes && s'.loaded == s.loaded && s'.error == s.error
  {
    hide Inv, Initial, Step, Enabled, Quiet;
    RunOk(ws, es, i);
    S.SegmentAt(ws, es, i);
    AnswerStep(ws[i], k);
    j := FetchOrigin(ws, es, i, k);
    QuietExactly(ws, es, j, i);
  }

  /** THE NOTES CONVERGE: after such an answer the page has the revision announced, and fetches no more until another one is. */
  lemma NotesConverge(ws: seq<World>, es: seq<Event>, i: nat, k: nat, now: int) returns (j: nat)
    requires Run(ws, es) && i < |es| && es[i] == Note(N.DeliverFetch(k))
    ensures |ws| == |es| + 1 && k < |ws[i].notes.fetches| && StartedAt(ws, es, j, i, ws[i].notes.fetches[k])
    ensures ws[i].notes.fetches[k].answer.Some? && ws[i].notes.fetches[k].answer.value < |ws[i].h|
    ensures var v, s' := ws[i].h[ws[i].notes.fetches[k].answer.value], ws[i + 1].notes.state;
      v.gen == ws[i].drafts.core.gen && v.notesRev == ws[i].notes.state.bootRev && Quiet(ws, es, j, i) ==>
        s'.notes == v.notes && s'.loaded == Some(s'.bootRev) && !Enabled(ws[i + 1], Note(N.StartFetch(now)))
  {
    hide Inv, Initial, Step, Enabled, Quiet;
    j := RenewedExactly(ws, es, i, k);
    FetchedExactly(ws, es, i + 1, now);
    RunOk(ws, es, i);
    S.SegmentAt(ws, es, i);
    AnswerStep(ws[i], k);
  }

  // ---------------------------------------------------------------- the announced revision, failures, and all other steps

  lemma OtherLocal(h: seq<Version>, c: Core, net: N.Net, e: N.Event)
    requires |h| > 0 && N.Enabled(h, c, net, e) && !e.DeliverNote? && !e.DeliverFetch?
    ensures var s, s' := net.state, N.Step(h, c, net, e).state;
      && s'.notes == s.notes && s'.loaded == s.loaded && s'.bootRev == s.bootRev
      && if e.FailFetch? && e.k < |net.fetches| && net.fetches[e.k].gen == c.gen && net.fetches[e.k].rev == s.bootRev
            && net.fetches[e.k].epoch == s.epoch
         then s'.error && s'.retryAt == e.now + 3000 else s'.error == s.error && s'.retryAt == s.retryAt
  {
    hide N.Performs;
  }

  lemma OtherStep(w: World, e: Event)
    requires Enabled(w, e) && e != Note(N.DeliverNote) && !(e.Note? && e.n.DeliverFetch?) && !Delivers(w, e)
    ensures var s, s' := w.notes.state, Step(w, e).notes.state;
      && s'.notes == s.notes && s'.loaded == s.loaded && s'.bootRev == s.bootRev
      && if e.Note? && e.n.FailFetch? && e.n.k < |w.notes.fetches| && w.notes.fetches[e.n.k].gen == w.drafts.core.gen
            && w.notes.fetches[e.n.k].rev == s.bootRev && w.notes.fetches[e.n.k].epoch == s.epoch
         then s'.error && s'.retryAt == e.n.now + 3000 else s'.error == s.error && s'.retryAt == s.retryAt
  {
    StepNotes(w, e);
    if e.Note? {
      OtherLocal(w.h, w.drafts.core, w.notes, e.n);
    }
    hide Step, Enabled, N.Step, N.Enabled;
  }

  /** A fetch that fails is reported, and the next one put off by three seconds, exactly if the page is still waiting for it:
      project and announced revision are the same, and no answer of a note has been taken over since it was started. */
  lemma FailedExactly(ws: seq<World>, es: seq<Event>, i: nat, k: nat, now: int) returns (j: nat)
    requires Run(ws, es) && i < |es| && es[i] == Note(N.FailFetch(k, now))
    ensures |ws| == |es| + 1 && k < |ws[i].notes.fetches| && StartedAt(ws, es, j, i, ws[i].notes.fetches[k])
    ensures var s, s' := ws[i].notes.state, ws[i + 1].notes.state;
      && s'.notes == s.notes && s'.loaded == s.loaded
      && if Quiet(ws, es, j, i) then s'.error && s'.retryAt == now + 3000 else s'.error == s.error && s'.retryAt == s.retryAt
  {
    hide Inv, Initial, Step, Quiet;
    S.SegmentAt(ws, es, i);
    FailOf(ws[i], k, now);
    hide Enabled;
    j := FetchOrigin(ws, es, i, k);
    QuietExactly(ws, es, j, i);
    OtherStep(ws[i], es[i]);
  }

  lemma FailOf(w: World, k: nat, now: int)
    requires Enabled(w, Note(N.FailFetch(k, now)))
    ensures k < |w.notes.fetches|
  {
  }

  lemma SnapshotLocal(c: Core, net: N.Net, v: Version)
    ensures var s, s' := net.state, N.Refreshed(c, net, SnapshotOf(v)).state;
      && s'.bootRev == v.notesRev
      && if v.gen == c.gen then s'.notes == s.notes && s'.loaded == s.loaded && s'.error == s.error && s'.retryAt == s.retryAt
         else s'.notes == map[] && s'.loaded.None? && !s'.error && s'.retryAt == 0
  {
  }

  /** The revision announced is that of the snapshot delivered last, or that of an answer of a note taken over since; notes,
      loaded revision, error and delay are not touched by anything but the answers above and a change of project. */
  lemma NotesOtherwise(ws: seq<World>, es: seq<Event>, i: nat)
    requires Run(ws, es) && i < |es| && es[i] != Note(N.DeliverNote) && !(es[i].Note? && (es[i].n.DeliverFetch? || es[i].n.FailFetch?))
    ensures Delivers(ws[i], es[i]) ==> ws[i].drafts.poll.at < |ws[i].h|
    ensures var s, s' := ws[i].notes.state, ws[i + 1].notes.state;
      && s'.bootRev == (if Delivers(ws[i], es[i]) then ws[i].h[ws[i].drafts.poll.at].notesRev else s.bootRev)
      && if ws[i + 1].drafts.core.gen == ws[i].drafts.core.gen
         then s'.notes == s.notes && s'.loaded == s.loaded && s'.error == s.error && s'.retryAt == s.retryAt
         else s'.notes == map[] && s'.loaded.None? && !s'.error && s'.retryAt == 0
  {
    RunOk(ws, es, i);
    S.SegmentAt(ws, es, i);
    StepNotes(ws[i], es[i]);
    if Delivers(ws[i], es[i]) {
      StepBench(ws[i], es[i]);
      SnapshotLocal(ws[i].drafts.core, ws[i].notes, ws[i].h[ws[i].drafts.poll.at]);
    } else {
      OtherStep(ws[i], es[i]);
      Q.GenerationStep(ws[i], es[i]);
    }
    hide Inv, Initial, Segment, Step, Enabled, N.Refreshed;
  }

  /** A note whose turn comes is sent exactly if its project is still shown; otherwise it is dropped. */
  lemma SentExactly(ws: seq<World>, es: seq<Event>, i: nat)
    requires Run(ws, es) && i < |es| && es[i] == Note(N.Dispatch)
    ensures var s, s' := ws[i].notes.state, ws[i + 1].notes.state;
      && s.queue != [] && (s'.posted <==> s.queue[0].gen == ws[i].drafts.core.gen)
      && s'.queue == if s'.posted then s.queue else s.queue[1..]
  {
    S.SegmentAt(ws, es, i);
    hide Initial, Segment, D.Step, B.Step, N.Performs;
  }
}

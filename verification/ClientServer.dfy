/**
 * The whole client next to the server, and what holds in every run of the two.
 */
module ClientServer {
  import opened ServerHistory
  import opened ClientState
  import D = DraftSync
  import N = NotesSync
  import B = BenchSync

  datatype World = World(h: seq<Version>, drafts: D.Net, notes: N.Net, bench: B.Net)

  datatype Event =
    | Draft(d: D.Event)
    | Note(n: N.Event)
    | Sequencer(b: B.Event)
    | Server(v: Version)     // anything the server does on its own or for somebody else

  predicate OthersChange(h: seq<Version>, v: Version)
    requires |h| > 0
  {
    var u := h[|h| - 1];
    && Follows(h, v) && v.accepted == u.accepted
    && (v.gen == u.gen ==> forall k | |u.textLog| <= k < |v.textLog| :: v.textLog[k].Them?)
  }

  predicate Enabled(w: World, e: Event) {
    |w.h| > 0 &&
    match e
    case Draft(d) => D.Enabled(w.h, w.drafts, d)
    case Note(n) => N.Enabled(w.h, w.drafts.core, w.notes, n)
    case Sequencer(b) => B.Enabled(w.h, w.drafts.core, w.bench, b)
    case Server(v) => OthersChange(w.h, v)
  }

  /** A settled Sequencer write makes the next poll ask for everything. */
  function AfterBench(net: D.Net, before: B.Net, after: B.Net): D.Net {
    if |after.state.queue| < |before.state.queue| then net.(core := net.core.(seqNo := 0)) else net
  }

  function Step(w: World, e: Event): World
    requires Enabled(w, e)
  {
    var c := w.drafts.core;
    match e
    case Draft(d) =>
      var w' := w.(h := w.h + D.Appended(d), drafts := D.Step(w.h, w.drafts, d));
      if d.DeliverPoll? && w.drafts.poll.Full? then
        var snap := SnapshotOf(w.h[w.drafts.poll.at]);
        w'.(notes := N.Refreshed(c, w.notes, snap), bench := B.Refreshed(c, w.bench, snap))
      else w'
    case Note(n) => w.(h := w.h + N.Appended(n), notes := N.Step(w.h, c, w.notes, n))
    case Sequencer(b) =>
      var bench := B.Step(w.h, c, w.drafts.shown, w.bench, b);
      w.(h := w.h + B.Appended(b), bench := bench, drafts := AfterBench(w.drafts, w.bench, bench))
    case Server(v) => w.(h := w.h + [v])
  }

  /** A full snapshot is delivered. */
  predicate Delivers(w: World, e: Event) { e == Draft(D.DeliverPoll) && w.drafts.poll.Full? }

  lemma DeliveredGeneration(h: seq<Version>, net: D.Net)
    requires |h| > 0 && net.poll.Full? && D.Enabled(h, net, D.DeliverPoll)
    ensures net.poll.at < |h| && D.Step(h, net, D.DeliverPoll).core.gen == h[net.poll.at].gen
  {
    hide SliceOf, KeepsDraft;
  }

  /** What a step does to the Sequencer. */
  lemma StepBench(w: World, e: Event)
    requires Enabled(w, e)
    ensures |w.h| > 0
    ensures e.Sequencer? ==>
      && B.Enabled(w.h, w.drafts.core, w.bench, e.b) && Step(w, e).drafts.core.gen == w.drafts.core.gen
      && Step(w, e).bench == B.Step(w.h, w.drafts.core, w.drafts.shown, w.bench, e.b)
    ensures Delivers(w, e) ==>
      && w.drafts.poll.at < |w.h| && Step(w, e).drafts.core.gen == w.h[w.drafts.poll.at].gen
      && Step(w, e).bench == B.Refreshed(w.drafts.core, w.bench, SnapshotOf(w.h[w.drafts.poll.at]))
    ensures !e.Sequencer? && !Delivers(w, e) ==> Step(w, e).bench == w.bench
  {
    if Delivers(w, e) { DeliveredGeneration(w.h, w.drafts); }
    hide D.Step, B.Step, N.Step, D.Enabled, B.Enabled, N.Enabled, OthersChange, B.Refreshed, N.Refreshed;
  }

  /** What a step does to the notes. */
  lemma StepNotes(w: World, e: Event)
    requires Enabled(w, e)
    ensures |w.h| > 0
    ensures e.Note? ==>
      && N.Enabled(w.h, w.drafts.core, w.notes, e.n) && Step(w, e).drafts == w.drafts
      && Step(w, e).notes == N.Step(w.h, w.drafts.core, w.notes, e.n)
    ensures Delivers(w, e) ==>
      && w.drafts.poll.at < |w.h|
      && Step(w, e).notes == N.Refreshed(w.drafts.core, w.notes, SnapshotOf(w.h[w.drafts.poll.at]))
    ensures !e.Note? && !Delivers(w, e) ==> Step(w, e).notes == w.notes
  {
    if Delivers(w, e) { DeliveredGeneration(w.h, w.drafts); }
    hide D.Step, B.Step, N.Step, D.Enabled, B.Enabled, N.Enabled, OthersChange, B.Refreshed, N.Refreshed;
  }

  /** The page has just been loaded, with or without a usable first snapshot. */
  function Start(h: seq<Version>, loaded: bool): World
    requires |h| > 0
  {
    var snap := if loaded then SnapshotOf(h[|h| - 1]) else EMPTY_SNAPSHOT;
    World(h, D.Start(h, loaded), N.Start(snap), B.Start(snap))
  }

  ghost predicate Initial(w: World) {
    && Lawful(w.h) && w.h[|w.h| - 1].accepted == {}
    && exists loaded :: w == Start(w.h, loaded)
  }

  /** A finite run: worlds and the events between them. */
  predicate Segment(ws: seq<World>, es: seq<Event>) {
    && |ws| == |es| + 1
    && forall i {:trigger es[i]} | 0 <= i < |es| :: Enabled(ws[i], es[i]) && ws[i + 1] == Step(ws[i], es[i])
  }

  ghost predicate Run(ws: seq<World>, es: seq<Event>) {
    Segment(ws, es) && Initial(ws[0])
  }

  // ---------------------------------------------------------------- the invariant of every run

  ghost predicate Inv(w: World) {
    && Lawful(w.h)
    && D.Inv(w.h, w.drafts)
    && N.Inv(w.h, w.drafts.shown, w.notes)
    && B.Inv(w.h, w.drafts.core, w.drafts.shown, w.bench)
  }

  lemma InitialOk(w: World)
    requires Initial(w)
    ensures Inv(w)
  {
    var loaded :| w == Start(w.h, loaded);
    D.StartOk(w.h, loaded);
    N.StartOk(w.h, loaded);
    B.StartOk(w.h, w.drafts.core, w.drafts.shown, if loaded then SnapshotOf(w.h[|w.h| - 1]) else EMPTY_SNAPSHOT);
    hide D.LanesOk, N.Inv, B.Inv, Lawful, N.Start, B.Start;
  }

  lemma SnapshotOk(w: World)
    requires Inv(w) && D.Enabled(w.h, w.drafts, D.DeliverPoll) && w.drafts.poll.Full?
    ensures Inv(Step(w, Draft(D.DeliverPoll)))
  {
    hide D.Inv, N.Inv, B.Inv, D.Step, Lawful;
    var w' := Step(w, Draft(D.DeliverPoll));
    D.StepOk(w.h, w.drafts, D.DeliverPoll);
    assert w.h + [] == w.h;
    D.Frame(w.h, w.drafts, D.DeliverPoll);
    D.ClientFrame(w'.h, w'.drafts);
    N.RefreshedOk(w.h, w.drafts.core, w.drafts.shown, w.notes, w.drafts.poll.at);
    B.RefreshedOk(w.h, w.drafts.core, w.drafts.shown, w.bench, w.drafts.poll.at, w'.drafts.core);
  }

  lemma DraftStepOk(w: World, d: D.Event)
    requires Inv(w) && D.Enabled(w.h, w.drafts, d) && !(d.DeliverPoll? && w.drafts.poll.Full?)
    ensures Inv(Step(w, Draft(d)))
  {
    hide D.Inv, N.Inv, B.Inv, D.Step, D.Performs;
    var w' := Step(w, Draft(d));
    D.StepOk(w.h, w.drafts, d);
    D.Frame(w.h, w.drafts, d);
    B.SameClientOk(w.h, w.drafts.core, w.drafts.shown, w.bench, w'.drafts.core);
    if d.Accept? || d.AcceptLate? {
      D.AcceptFrame(w.h, w.drafts, d);
      LawfulGrows(w.h, d.v);
      N.GrowsOk(w.h, d.v, w.drafts.shown, w.notes);
      B.GrowsOk(w.h, d.v, w'.drafts.core, w.drafts.shown, w.bench);
    } else {
      assert w'.h == w.h;
    }
  }

  lemma InvParts(w: World)
    requires Inv(w)
    ensures Lawful(w.h) && D.Inv(w.h, w.drafts) && N.Inv(w.h, w.drafts.shown, w.notes)
    ensures B.Inv(w.h, w.drafts.core, w.drafts.shown, w.bench)
  {
    hide Lawful, D.Inv, N.Inv, B.Inv;
  }

  lemma NoteAcceptOk(w: World, n: N.Event)
    requires Inv(w) && N.Enabled(w.h, w.drafts.core, w.notes, n) && (n.AcceptNote? || n.AcceptLate?)
    ensures Lawful(w.h + [n.v]) && D.Inv(w.h + [n.v], w.drafts)
    ensures B.Inv(w.h + [n.v], w.drafts.core, w.drafts.shown, w.bench)
  {
    N.AcceptFrame(w.h, w.drafts.core, w.notes, n);
    NoteGrows(w, n.v);
    hide D.Inv, N.Inv, B.Inv, N.Enabled, Lawful, Follows;
  }

  lemma NoteGrows(w: World, v: Version)
    requires Inv(w) && |w.h| > 0 && Follows(w.h, v)
    requires forall q, n: nat | q != Notes :: WriteId(q, n) in v.accepted ==> WriteId(q, n) in w.h[|w.h| - 1].accepted
    ensures Lawful(w.h + [v]) && D.Inv(w.h + [v], w.drafts) && B.Inv(w.h + [v], w.drafts.core, w.drafts.shown, w.bench)
  {
    hide *;
    InvParts(w);
    LawfulGrows(w.h, v);
    D.GrowsOk(w.h, v, w.drafts);
    B.GrowsOk(w.h, v, w.drafts.core, w.drafts.shown, w.bench);
  }

  lemma NoteStepOk(w: World, n: N.Event)
    requires Inv(w) && N.Enabled(w.h, w.drafts.core, w.notes, n)
    ensures Inv(Step(w, Note(n)))
  {
    hide D.Inv, N.Inv, B.Inv, N.Step, N.Enabled, Lawful, Follows;
    D.ClientFrame(w.h, w.drafts);
    N.StepOk(w.h, w.drafts.core, w.drafts.shown, w.notes, n);
    if n.AcceptNote? || n.AcceptLate? {
      NoteAcceptOk(w, n);
    } else {
      assert w.h + [] == w.h;
    }
  }

  /** The drafts and the notes do not notice a Sequencer write being performed. */
  lemma BenchAcceptFrame(w: World, b: B.Event)
    requires Inv(w) && B.Enabled(w.h, w.drafts.core, w.bench, b) && (b.Accept? || b.AcceptLate?)
    ensures Lawful(w.h + [b.v]) && D.Inv(w.h + [b.v], w.drafts) && N.Inv(w.h + [b.v], w.drafts.shown, w.notes)
  {
    B.AcceptFrame(w.h, w.drafts.core, w.bench, b);
    hide D.Inv, N.Inv, B.Inv, B.Enabled, Lawful, Follows;
    LawfulGrows(w.h, b.v);
    D.GrowsOk(w.h, b.v, w.drafts);
    N.GrowsOk(w.h, b.v, w.drafts.shown, w.notes);
  }

  lemma BenchAcceptOk(w: World, b: B.Event)
    requires Inv(w) && B.Enabled(w.h, w.drafts.core, w.bench, b) && (b.Accept? || b.AcceptLate?)
    ensures Inv(Step(w, Sequencer(b)))
  {
    assert |w.h| > 0;
    hide D.Inv, N.Inv, B.Inv, B.Step, B.Enabled, Lawful, Follows;
    D.ClientFrame(w.h, w.drafts);
    B.StepOk(w.h, w.drafts.core, w.drafts.shown, w.bench, b);
    BenchAcceptFrame(w, b);
    BenchResetOk(w, b);
  }

  lemma BenchResetOk(w: World, b: B.Event)
    requires |w.h| > 0 && B.Enabled(w.h, w.drafts.core, w.bench, b) && D.Inv(w.h + B.Appended(b), w.drafts)
    requires var w' := Step(w, Sequencer(b)); B.Inv(w'.h, w.drafts.core, w.drafts.shown, w'.bench)
    ensures var w' := Step(w, Sequencer(b)); D.Inv(w'.h, w'.drafts) && B.Inv(w'.h, w'.drafts.core, w'.drafts.shown, w'.bench)
  {
    var w' := Step(w, Sequencer(b));
    hide D.Inv, B.Inv, B.Step, B.Enabled, Follows;
    D.ResetOk(w'.h, w.drafts);
    B.SameClientOk(w'.h, w.drafts.core, w.drafts.shown, w'.bench, w'.drafts.core);
  }

  lemma BenchStepOk(w: World, b: B.Event)
    requires Inv(w) && B.Enabled(w.h, w.drafts.core, w.bench, b) && !b.Accept? && !b.AcceptLate?
    ensures Inv(Step(w, Sequencer(b)))
  {
    D.ClientFrame(w.h, w.drafts);
    assert w.h + [] == w.h;
    hide D.Inv, N.Inv, B.Inv, B.Step, B.Enabled, Lawful, Follows;
    B.StepOk(w.h, w.drafts.core, w.drafts.shown, w.bench, b);
    BenchResetOk(w, b);
  }

  lemma ServerStepOk(w: World, v: Version)
    requires Inv(w) && OthersChange(w.h, v)
    ensures Inv(Step(w, Server(v)))
  {
    hide D.Inv, N.Inv, B.Inv;
    LawfulGrows(w.h, v);
    D.GrowsOk(w.h, v, w.drafts);
    N.GrowsOk(w.h, v, w.drafts.shown, w.notes);
    B.GrowsOk(w.h, v, w.drafts.core, w.drafts.shown, w.bench);
  }

  lemma StepOk(w: World, e: Event)
    requires Inv(w) && Enabled(w, e)
    ensures Inv(Step(w, e))
  {
    hide Inv, Step;
    match e
    case Draft(d) => if d.DeliverPoll? && w.drafts.poll.Full? { SnapshotOk(w); } else { DraftStepOk(w, d); }
    case Note(n) => NoteStepOk(w, n);
    case Sequencer(b) => if b.Accept? || b.AcceptLate? { BenchAcceptOk(w, b); } else { BenchStepOk(w, b); }
    case Server(v) => ServerStepOk(w, v);
  }

  lemma {:induction false} SegmentOk(ws: seq<World>, es: seq<Event>, i: nat)
    requires Segment(ws, es) && i < |ws| && Inv(ws[0])
    ensures Inv(ws[i])
  {
    if i > 0 {
      SegmentOk(ws, es, i - 1);
      hide Inv, Step;
      StepOk(ws[i - 1], es[i - 1]);
    }
  }

  /** Every world of every run satisfies the invariant. */
  lemma RunOk(ws: seq<World>, es: seq<Event>, i: nat)
    requires Run(ws, es) && i < |ws|
    ensures Inv(ws[i])
  {
    hide Inv, Initial, Step;
    InitialOk(ws[0]);
    SegmentOk(ws, es, i);
  }
}

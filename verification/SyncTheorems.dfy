/**
 * What the synchronisation of ui-v2/real-data.js achieves, for every run of client and server.
 */
module SyncTheorems {
  import opened ServerHistory
  import opened ClientState
  import opened ClientServer
  import D = DraftSync
  import N = NotesSync
  import B = BenchSync

  function LaneAt(w: World, q: LaneName): Lane { w.drafts.core.Lane(q) }

  function WireAt(w: World, q: LaneName): D.Wire { w.drafts.Wire(q) }

  // ---------------------------------------------------------------- 304 is safe

  /** NL._seq, when it is not 0, names a version of the server, and each draft without a pending
      write is that version's slice. */
  lemma SeqNamesWhatIsShown(ws: seq<World>, es: seq<Event>, i: nat, q: LaneName)
    requires Run(ws, es) && i < |ws| && ws[i].drafts.core.seqNo != 0
    ensures exists k | 0 <= k < |ws[i].h| ::
      && ws[i].h[k].instance == ws[i].drafts.core.instance && ws[i].h[k].seqNo == ws[i].drafts.core.seqNo
      && (LaneAt(ws[i], q).pending > 0 || LaneAt(ws[i], q).draft == Shown(ws[i].h[k], q))
  {
    RunOk(ws, es, i);
    InvFacts(ws[i], q);
    LawfulWellFormed(ws[i].h, ws[i].drafts.shown);
    hide Run, Inv, Lawful;
  }

  lemma InvFacts(w: World, q: LaneName)
    requires Inv(w)
    ensures Lawful(w.h) && ClientOk(w.h, w.drafts.core, w.drafts.shown)
    ensures D.SeqOk(w.h, w.drafts.core, w.drafts.shown) && D.PollOk(w.h, w.drafts)
    ensures D.QueueOk(w.h, LaneAt(w, q), WireAt(w, q), q) && D.IssuedOk(w.h, WireAt(w, q), w.drafts.shown)
  {
  }

  /** When a 304 arrives and NL._seq has not been reset meanwhile, each draft without a pending
      write is the server's slice at the very moment it answered. */
  lemma NotModifiedIsSafe(ws: seq<World>, es: seq<Event>, i: nat, q: LaneName)
    requires Run(ws, es) && i < |es| && es[i] == Draft(D.DeliverPoll) && ws[i].drafts.poll.Unchanged?
    requires ws[i].drafts.core.seqNo != 0 && LaneAt(ws[i], q).pending == 0
    ensures ws[i].drafts.poll.at < |ws[i].h| && LaneAt(ws[i], q).draft == Shown(ws[i].h[ws[i].drafts.poll.at], q)
  {
    RunOk(ws, es, i);
    InvFacts(ws[i], q);
    LawfulWellFormed(ws[i].h, ws[i].drafts.shown);
    hide Run, Inv, Lawful;
    VersionIdUnique(ws[i].h, ws[i].drafts.shown, ws[i].drafts.poll.at);
  }

  // ---------------------------------------------------------------- stale polls

  /** A snapshot is about to replace the draft of q. */
  predicate Adopts(w: World, e: Event, q: LaneName) {
    && e == Draft(D.DeliverPoll) && w.drafts.poll.Full? && w.drafts.poll.at < |w.h|
    && !KeepsDraft(w.h[w.drafts.poll.at].gen != w.drafts.core.gen, LaneAt(w, q), w.drafts.poll.ticket.Epoch(q))
  }

  predicate Issues(e: Event, q: LaneName) {
    e.Draft? && e.d.Issue? && e.d.q == q
  }

  lemma DraftLaneStep(h: seq<Version>, net: D.Net, e: D.Event, q: LaneName)
    requires |h| > 0 && D.Enabled(h, net, e)
    ensures var l, l' := net.core.Lane(q), D.Step(h, net, e).core.Lane(q);
      && l'.epoch == l.epoch + (if e.Issue? && e.q == q then 1 else 0)
      && l'.draft ==
           if e.DeliverPoll? && net.poll.Full? && !KeepsDraft(h[net.poll.at].gen != net.core.gen, l, net.poll.ticket.Epoch(q))
           then Shown(h[net.poll.at], q)
           else if e.Issue? && e.q == q && e.optimistic then l.draft + e.payload
           else l.draft
  {
    hide Follows, D.Performs;
  }

  /** One step on one lane, without the rest of the client. */
  lemma LaneStep(w: World, e: Event, q: LaneName)
    requires Enabled(w, e)
    ensures var l, l' := LaneAt(w, q), LaneAt(Step(w, e), q);
      && l'.epoch == l.epoch + (if Issues(e, q) then 1 else 0)
      && l'.draft == (if Adopts(w, e, q) then Shown(w.h[w.drafts.poll.at], q)
                      else if Issues(e, q) && e.d.optimistic then l.draft + e.d.payload
                      else l.draft)
  {
    hide Follows, D.Performs, B.Step, N.Step, B.Enabled, N.Enabled, B.Refreshed, N.Refreshed, SliceOf, OthersChange;
    if e.Draft? {
      DraftLaneStep(w.h, w.drafts, e.d, q);
    }
  }

  /** One step of the poll. */
  lemma PollStep(w: World, e: Event)
    requires Enabled(w, e) && !Step(w, e).drafts.poll.Idle?
    ensures var net, t := w.drafts, Step(w, e).drafts.poll.ticket;
      if e == Draft(D.SendPoll)
      then t == D.Ticket(net.core.seqNo, net.core.instance, net.core.repeater.epoch, net.core.intruder.epoch)
      else !net.poll.Idle? && t == net.poll.ticket
  {
    hide Follows, D.Performs, B.Step, N.Step, B.Enabled, N.Enabled, B.Refreshed, N.Refreshed, SliceOf, OthersChange;
  }

  /** The poll under way was sent at some step j and has been the only one since. */
  lemma {:induction false} PollOrigin(ws: seq<World>, es: seq<Event>, i: nat) returns (j: nat)
    requires Segment(ws, es) && ws[0].drafts.poll.Idle? && i < |ws| && !ws[i].drafts.poll.Idle?
    ensures j < i && es[j] == Draft(D.SendPoll)
    ensures var net, t := ws[j].drafts, ws[i].drafts.poll.ticket;
      t == D.Ticket(net.core.seqNo, net.core.instance, net.core.repeater.epoch, net.core.intruder.epoch)
    ensures forall m | j < m < i :: es[m] != Draft(D.SendPoll)
    ensures forall m | j < m <= i :: !ws[m].drafts.poll.Idle?
  {
    hide Step, Enabled;
    PollStep(ws[i - 1], es[i - 1]);
    if es[i - 1] == Draft(D.SendPoll) {
      j := i - 1;
    } else {
      j := PollOrigin(ws, es, i - 1);
    }
  }

  /** An epoch counts the writes issued: it stands still exactly while none is. */
  lemma {:induction false} EpochCounts(ws: seq<World>, es: seq<Event>, j: nat, i: nat, q: LaneName)
    requires Segment(ws, es) && j <= i < |ws|
    ensures LaneAt(ws[j], q).epoch <= LaneAt(ws[i], q).epoch
    ensures LaneAt(ws[j], q).epoch == LaneAt(ws[i], q).epoch <==> forall m | j <= m < i :: !Issues(es[m], q)
  {
    if j < i {
      hide Step, Enabled, Adopts;
      EpochCounts(ws, es, j, i - 1, q);
      LaneStep(ws[i - 1], es[i - 1], q);
      assert ws[i] == Step(ws[i - 1], es[i - 1]);
    }
  }

  /** Within one generation a delivered poll replaces a draft only when no write of it is pending
      and the poll was sent after the latest one was issued. */
  lemma StalePollNeverOverwrites(ws: seq<World>, es: seq<Event>, i: nat, q: LaneName)
    requires Run(ws, es) && i < |es| && es[i] == Draft(D.DeliverPoll)
    requires ws[i + 1].drafts.core.gen == ws[i].drafts.core.gen
    requires LaneAt(ws[i + 1], q).draft != LaneAt(ws[i], q).draft
    ensures LaneAt(ws[i], q).pending == 0
    ensures exists j | 0 <= j < i :: es[j] == Draft(D.SendPoll) && forall m | j <= m < i :: !Issues(es[m], q)
  {
    LaneStep(ws[i], es[i], q);
    RunOk(ws, es, i);
    InvFacts(ws[i], q);
    D.Frame(ws[i].h, ws[i].drafts, D.DeliverPoll);
    StartsIdle(ws[0]);
    hide Initial, Inv, Enabled, Step;
    var j := PollOrigin(ws, es, i);
    EpochCounts(ws, es, j, i, q);
  }

  /** A poll under way is not delivered by a step that leaves it under way. */
  lemma OpenPollAdoptsNothing(w: World, e: Event, q: LaneName)
    requires Enabled(w, e) && !Step(w, e).drafts.poll.Idle?
    ensures !Adopts(w, e, q)
  {
    hide Follows, D.Performs, ApplySnapshot, B.Step, N.Step, B.Enabled, N.Enabled, B.Refreshed, N.Refreshed, SliceOf, OthersChange;
  }

  /** While the poll sent at j is under way and no write of q is issued, the draft of q stands still. */
  lemma {:induction false} DraftStands(ws: seq<World>, es: seq<Event>, j: nat, i: nat, q: LaneName)
    requires Segment(ws, es) && j < i < |ws|
    requires es[j] == Draft(D.SendPoll) && forall m | j < m <= i :: !ws[m].drafts.poll.Idle?
    requires forall m | j <= m < i :: !Issues(es[m], q)
    ensures LaneAt(ws[i], q).draft == LaneAt(ws[j], q).draft
  {
    hide Step, Enabled, Adopts;
    SegmentAt(ws, es, i - 1);
    LaneStep(ws[i - 1], es[i - 1], q);
    OpenPollAdoptsNothing(ws[i - 1], es[i - 1], q);
    if j + 1 < i {
      DraftStands(ws, es, j, i - 1, q);
    }
  }

  /** For one draft, whatever NL._seq is by then: if none of its writes was pending when the poll was sent and none
      has been issued since, a 304 means that the draft is the server's slice at the moment it answered. */
  lemma NotModifiedForDraft(ws: seq<World>, es: seq<Event>, j: nat, i: nat, q: LaneName)
    requires Run(ws, es) && j < i < |es|
    requires es[j] == Draft(D.SendPoll) && LaneAt(ws[j], q).pending == 0 && forall m | j <= m < i :: !Issues(es[m], q)
    requires forall m | j < m < i :: es[m] != Draft(D.SendPoll)
    requires es[i] == Draft(D.DeliverPoll) && ws[i].drafts.poll.Unchanged?
    ensures ws[i].drafts.poll.at < |ws[i].h| && LaneAt(ws[i], q).draft == Shown(ws[i].h[ws[i].drafts.poll.at], q)
  {
    RunOk(ws, es, j);
    RunOk(ws, es, i);
    InvFacts(ws[j], q);
    InvFacts(ws[i], q);
    StartsIdle(ws[0]);
    HistoryGrows(ws, es, j, i);
    hide Initial, Inv, Enabled, Step;
    var sent := PollOrigin(ws, es, i);
    assert sent == j;
    DraftStands(ws, es, j, i, q);
    hide Run, Segment;
    var h, at, shown := ws[i].h, ws[i].drafts.poll.at, ws[j].drafts.shown;
    LawfulWellFormed(h, shown);
    hide Lawful;
    VersionIdUnique(h, shown, at);
  }

  lemma StartsIdle(w: World)
    requires Initial(w)
    ensures w.drafts.poll.Idle?
  {
  }

  /** The optimistic edits of q among the events, in order. */
  function EditsIn(es: seq<Event>, q: LaneName): seq<Slice> {
    if es == [] then []
    else
      var e := es[|es| - 1];
      EditsIn(es[..|es| - 1], q) + if Issues(e, q) && e.d.optimistic then [e.d.payload] else []
  }

  /** `{...base, ...edit0, ...edit1, ...}` */
  function Overlay(base: Slice, edits: seq<Slice>): Slice {
    if edits == [] then base else Overlay(base, edits[..|edits| - 1]) + edits[|edits| - 1]
  }

  /** One more event lays at most one more edit over the base. */
  lemma OverlayStep(base: Slice, es: seq<Event>, q: LaneName)
    requires es != []
    ensures var e, before := es[|es| - 1], Overlay(base, EditsIn(es[..|es| - 1], q));
      Overlay(base, EditsIn(es, q)) == if Issues(e, q) && e.d.optimistic then before + e.d.payload else before
  {
    var edits, more := EditsIn(es[..|es| - 1], q), EditsIn(es, q);
    if more != edits {
      assert more[..|more| - 1] == edits;
    }
  }

  /** No adoption from b up to i. */
  predicate Undisturbed(ws: seq<World>, es: seq<Event>, b: nat, i: nat, q: LaneName)
    requires b <= i < |ws| && |ws| == |es| + 1
  {
    forall k | b <= k < i :: !Adopts(ws[k], es[k], q)
  }

  lemma UndisturbedBefore(ws: seq<World>, es: seq<Event>, b: nat, i: nat, q: LaneName)
    requires b < i < |ws| && |ws| == |es| + 1 && Undisturbed(ws, es, b, i, q)
    ensures Undisturbed(ws, es, b, i - 1, q) && !Adopts(ws[i - 1], es[i - 1], q)
  {
    hide Adopts;
  }

  /** Without an adoption between b and i, the draft only gains edits. */
  lemma {:induction false} EditsLaidOver(ws: seq<World>, es: seq<Event>, b: nat, i: nat, q: LaneName)
    requires Segment(ws, es) && b <= i < |ws| && Undisturbed(ws, es, b, i, q)
    ensures LaneAt(ws[i], q).draft == Overlay(LaneAt(ws[b], q).draft, EditsIn(es[b..i], q))
  {
    assert |ws| == |es| + 1;
    hide *;
    if b == i {
      NoEdits(LaneAt(ws[b], q).draft, es, b, q);
    } else {
      SegmentAt(ws, es, i - 1);
      UndisturbedBefore(ws, es, b, i, q);
      EditsLaidOver(ws, es, b, i - 1, q);
      LaneStep(ws[i - 1], es[i - 1], q);
      OverlayAt(LaneAt(ws[b], q).draft, es, b, i, q);
    }
  }

  lemma NoEdits(base: Slice, es: seq<Event>, b: nat, q: LaneName)
    requires b <= |es|
    ensures Overlay(base, EditsIn(es[b..b], q)) == base
  {
    assert es[b..b] == [];
  }

  lemma SegmentAt(ws: seq<World>, es: seq<Event>, k: nat)
    requires Segment(ws, es) && k < |es|
    ensures |ws| == |es| + 1 && Enabled(ws[k], es[k]) && ws[k + 1] == Step(ws[k], es[k])
  {
    hide Enabled, Step;
  }

  lemma OverlayAt(base: Slice, es: seq<Event>, b: nat, i: nat, q: LaneName)
    requires b < i <= |es|
    ensures var e, before := es[i - 1], Overlay(base, EditsIn(es[b..i - 1], q));
      Overlay(base, EditsIn(es[b..i], q)) == if Issues(e, q) && e.d.optimistic then before + e.d.payload else before
  {
    hide *;
    SliceLast(es, b, i);
    OverlayStep(base, es[b..i], q);
  }

  lemma SliceLast(es: seq<Event>, b: nat, i: nat)
    requires b < i <= |es|
    ensures var s := es[b..i]; s != [] && s[|s| - 1] == es[i - 1] && s[..|s| - 1] == es[b..i - 1]
  {
  }

  /** World b shows a slice just taken over: at an adoption, or when the page was loaded. */
  predicate JustAdopted(ws: seq<World>, es: seq<Event>, b: nat, q: LaneName)
    requires |ws| == |es| + 1 && b < |ws|
  {
    var w := ws[b];
    if b > 0 then
      Adopts(ws[b - 1], es[b - 1], q) && LaneAt(w, q).draft == Shown(ws[b - 1].h[ws[b - 1].drafts.poll.at], q)
    else
      |w.h| > 0 && LaneAt(w, q).draft == SliceOf(if w.drafts.shown < 0 then EMPTY_SNAPSHOT else SnapshotOf(w.h[|w.h| - 1]), q)
  }

  lemma StartsShowing(w: World, q: LaneName)
    requires Initial(w)
    ensures |w.h| > 0
    ensures LaneAt(w, q).draft == SliceOf(if w.drafts.shown < 0 then EMPTY_SNAPSHOT else SnapshotOf(w.h[|w.h| - 1]), q)
  {
    assert |w.h| > 0;
    hide Lawful, SliceOf;
  }

  lemma AdoptionShows(w: World, e: Event, q: LaneName)
    requires Enabled(w, e) && Adopts(w, e, q)
    ensures LaneAt(Step(w, e), q).draft == Shown(w.h[w.drafts.poll.at], q)
  {
    LaneStep(w, e, q);
    hide Step, Enabled;
  }

  lemma {:induction false} LastAdoption(ws: seq<World>, es: seq<Event>, i: nat, q: LaneName) returns (b: nat)
    requires Run(ws, es) && i < |ws|
    ensures b <= i && JustAdopted(ws, es, b, q) && Undisturbed(ws, es, b, i, q)
  {
    hide Step, Enabled, Adopts, Initial;
    if i == 0 {
      StartsShowing(ws[0], q);
      b := 0;
    } else if Adopts(ws[i - 1], es[i - 1], q) {
      AdoptionShows(ws[i - 1], es[i - 1], q);
      AdoptsVersion(ws[i - 1], es[i - 1], q);
      b := i;
    } else {
      b := LastAdoption(ws, es, i - 1, q);
    }
  }

  lemma AdoptsVersion(w: World, e: Event, q: LaneName)
    requires Adopts(w, e, q)
    ensures w.drafts.poll.Full? && w.drafts.poll.at < |w.h|
  {
  }

  /** At every moment of every run the draft is the slice taken over last, at the latest adoption or when the page
      was loaded, with every edit issued since laid over it in order. */
  lemma DraftIsOverlay(ws: seq<World>, es: seq<Event>, i: nat, q: LaneName)
    requires Run(ws, es) && i < |ws|
    ensures exists b | 0 <= b <= i ::
      && JustAdopted(ws, es, b, q)
      && Undisturbed(ws, es, b, i, q)
      && LaneAt(ws[i], q).draft == Overlay(LaneAt(ws[b], q).draft, EditsIn(es[b..i], q))
  {
    hide Step, Enabled, Adopts, Initial, JustAdopted;
    var b := LastAdoption(ws, es, i, q);
    EditsLaidOver(ws, es, b, i, q);
  }

  // ---------------------------------------------------------------- 304, exactly

  lemma SeqLocal(h: seq<Version>, net: D.Net, e: D.Event, q: LaneName)
    requires |h| > 0 && D.Enabled(h, net, e) && D.Step(h, net, e).core.seqNo != 0
    ensures var net' := D.Step(h, net, e);
      if e.DeliverPoll? && net.poll.Full?
      then net'.shown == net.poll.at && !KeepsDraft(h[net.poll.at].gen != net.core.gen, net.core.Lane(q), net.poll.ticket.Epoch(q))
      else net'.shown == net.shown && net'.core.seqNo == net.core.seqNo
  {
    hide Follows, D.Performs, SliceOf;
  }

  lemma SeqStep(w: World, e: Event, q: LaneName)
    requires Enabled(w, e) && Step(w, e).drafts.core.seqNo != 0
    ensures if Adopts(w, e, q) then Step(w, e).drafts.shown == w.drafts.poll.at
            else Step(w, e).drafts.shown == w.drafts.shown && w.drafts.core.seqNo != 0
  {
    hide Follows, D.Performs, D.Step, B.Step, N.Step, B.Enabled, N.Enabled, B.Refreshed, N.Refreshed, SliceOf, OthersChange, KeepsDraft;
    if e.Draft? {
      SeqLocal(w.h, w.drafts, e.d, q);
    }
  }

  lemma StartsUnnumbered(w: World)
    requires Initial(w)
    ensures w.drafts.core.seqNo == 0
  {
    hide Lawful, SliceOf;
  }

  lemma StartsNumberless(ws: seq<World>, es: seq<Event>)
    requires Run(ws, es)
    ensures ws[0].drafts.core.seqNo == 0
  {
    hide Step, Enabled, Initial;
    StartsUnnumbered(ws[0]);
  }

  lemma SeqAt(ws: seq<World>, es: seq<Event>, k: nat, q: LaneName)
    requires Run(ws, es) && k < |es| && ws[k + 1].drafts.core.seqNo != 0
    ensures if Adopts(ws[k], es[k], q) then ws[k + 1].drafts.shown == ws[k].drafts.poll.at
            else ws[k + 1].drafts.shown == ws[k].drafts.shown && ws[k].drafts.core.seqNo != 0
  {
    SegmentAt(ws, es, k);
    hide Initial, Step, Enabled, Segment, Adopts;
    SeqStep(ws[k], es[k], q);
  }

  lemma UndisturbedLater(ws: seq<World>, es: seq<Event>, b: nat, i: nat, q: LaneName)
    requires b <= i < |ws| && |ws| == |es| + 1
    requires b < i ==> Undisturbed(ws, es, b, i - 1, q) && !Adopts(ws[i - 1], es[i - 1], q)
    ensures Undisturbed(ws, es, b, i, q)
  {
    hide Adopts;
  }

  /** NL._seq, when it is not 0, names the version that both drafts took over last. */
  lemma {:induction false} SeqNamesAdoption(ws: seq<World>, es: seq<Event>, i: nat, q: LaneName) returns (b: nat)
    requires Run(ws, es) && i < |ws| && ws[i].drafts.core.seqNo != 0
    ensures 0 < b <= i && Adopts(ws[b - 1], es[b - 1], q) && Undisturbed(ws, es, b, i, q)
    ensures ws[b - 1].drafts.poll.at == ws[i].drafts.shown
  {
    StartsNumberless(ws, es);
    hide Step, Enabled, Adopts, Initial, Undisturbed;
    SeqAt(ws, es, i - 1, q);
    if Adopts(ws[i - 1], es[i - 1], q) {
      b := i;
    } else {
      b := SeqNamesAdoption(ws, es, i - 1, q);
    }
    UndisturbedLater(ws, es, b, i, q);
  }

  /** A poll answered with 304 was sent while NL._seq named the version it was answered from. */
  lemma UnchangedFacts(w: World, u: World)
    requires Inv(w) && Inv(u) && u.h <= w.h && w.drafts.poll.Unchanged?
    requires w.drafts.poll.ticket.since == u.drafts.core.seqNo && w.drafts.poll.ticket.instance == u.drafts.core.instance
    ensures w.drafts.poll.at < |w.h| && u.drafts.core.seqNo != 0 && u.drafts.shown == w.drafts.poll.at
  {
    InvFacts(w, Repeater);
    InvFacts(u, Repeater);
    LawfulWellFormed(u.h, u.drafts.shown);
    hide Inv, Lawful, D.QueueOk, D.IssuedOk;
    VersionIdUnique(w.h, u.drafts.shown, w.drafts.poll.at);
  }

  lemma {:induction false} UndisturbedWhileAsked(ws: seq<World>, es: seq<Event>, b: nat, j: nat, i: nat, q: LaneName)
    requires Segment(ws, es) && b <= j < i < |ws| && Undisturbed(ws, es, b, j, q)
    requires es[j] == Draft(D.SendPoll) && forall m | j < m <= i :: !ws[m].drafts.poll.Idle?
    ensures Undisturbed(ws, es, b, i, q)
  {
    hide Step, Enabled, Adopts;
    SegmentAt(ws, es, i - 1);
    OpenPollAdoptsNothing(ws[i - 1], es[i - 1], q);
    if j + 1 < i {
      UndisturbedWhileAsked(ws, es, b, j, i - 1, q);
    }
  }

  /** The fields typed by some edits, each with the value typed last. */
  function Typed(edits: seq<Slice>): Slice {
    if edits == [] then map[] else Typed(edits[..|edits| - 1]) + edits[|edits| - 1]
  }

  lemma {:induction false} OverlayIsTyped(base: Slice, edits: seq<Slice>)
    ensures Overlay(base, edits) == base + Typed(edits)
  {
    if edits != [] {
      OverlayIsTyped(base, edits[..|edits| - 1]);
    }
  }

  lemma SameWhenTyped(base: Slice, typed: Slice)
    ensures base + typed == base <==> forall f | f in typed :: f in base && base[f] == typed[f]
  {
    if base + typed == base {
      forall f | f in typed ensures f in base && base[f] == typed[f] {
        assert (base + typed)[f] == typed[f];
      }
    }
  }

  /** Every field typed in the edits has in the slice the value typed last. */
  predicate TypedIsThere(slice: Slice, edits: seq<Slice>) {
    var typed := Typed(edits);
    forall f | f in typed :: f in slice && slice[f] == typed[f]
  }

  /** The step from b - 1 took over version `at`, and the draft has not been replaced since. */
  predicate LastTaken(ws: seq<World>, es: seq<Event>, b: nat, i: nat, q: LaneName, at: nat)
    requires 0 < b <= i < |ws| && |ws| == |es| + 1
  {
    Adopts(ws[b - 1], es[b - 1], q) && ws[b - 1].drafts.poll.at == at && Undisturbed(ws, es, b, i, q)
  }

  /** WHAT A 304 MEANS, EXACTLY, for every 304 delivered, whatever is pending and whatever NL._seq is by then: the
      version it was answered from is the one the draft took over last, the draft is that slice with the edits typed
      since laid over it, and so it is the server's slice if and only if every field typed since has in it the
      value typed last. */
  lemma NotModifiedExactly(ws: seq<World>, es: seq<Event>, i: nat, q: LaneName) returns (b: nat)
    requires Run(ws, es) && i < |es| && es[i] == Draft(D.DeliverPoll) && ws[i].drafts.poll.Unchanged?
    ensures ws[i].drafts.poll.at < |ws[i].h| && 0 < b <= i && LastTaken(ws, es, b, i, q, ws[i].drafts.poll.at)
    ensures var slice, edits := Shown(ws[i].h[ws[i].drafts.poll.at], q), EditsIn(es[b..i], q);
      && LaneAt(ws[i], q).draft == Overlay(slice, edits)
      && (LaneAt(ws[i], q).draft == slice <==> TypedIsThere(slice, edits))
  {
    StartsIdle(ws[0]);
    hide Initial, Inv, Enabled, Step, Adopts, Undisturbed;
    var j := PollOrigin(ws, es, i);
    RunOk(ws, es, i);
    RunOk(ws, es, j);
    HistoryGrows(ws, es, j, i);
    UnchangedFacts(ws[i], ws[j]);
    b := SeqNamesAdoption(ws, es, j, q);
    UndisturbedWhileAsked(ws, es, b, j, i, q);
    EditsLaidOver(ws, es, b, i, q);
    AdoptedAt(ws, es, b, i, q);
    OverlayIsTyped(LaneAt(ws[b], q).draft, EditsIn(es[b..i], q));
    SameWhenTyped(LaneAt(ws[b], q).draft, Typed(EditsIn(es[b..i], q)));
  }

  lemma AdoptedAt(ws: seq<World>, es: seq<Event>, b: nat, i: nat, q: LaneName)
    requires Segment(ws, es) && 0 < b <= i < |ws| && |ws| == |es| + 1 && Adopts(ws[b - 1], es[b - 1], q)
    ensures ws[b - 1].drafts.poll.at < |ws[i].h| && LaneAt(ws[b], q).draft == Shown(ws[i].h[ws[b - 1].drafts.poll.at], q)
  {
    SegmentAt(ws, es, b - 1);
    AdoptsVersion(ws[b - 1], es[b - 1], q);
    HistoryGrows(ws, es, b - 1, i);
    hide Step, Enabled, Adopts, Segment;
    AdoptionShows(ws[b - 1], es[b - 1], q);
  }

  // ---------------------------------------------------------------- acknowledged writes

  lemma {:induction false} HistoryGrows(ws: seq<World>, es: seq<Event>, i: nat, j: nat)
    requires Segment(ws, es) && i <= j < |ws|
    ensures ws[i].h <= ws[j].h
  {
    if i < j {
      HistoryGrows(ws, es, i, j - 1);
      HistoryStep(ws[j - 1], es[j - 1]);
      hide Step, Enabled;
    }
  }

  lemma HistoryStep(w: World, e: Event)
    requires Enabled(w, e)
    ensures w.h <= Step(w, e).h
  {
    hide D.Step, B.Step, N.Step, D.Enabled, B.Enabled, N.Enabled, B.Refreshed, N.Refreshed, OthersChange, AfterBench;
  }

  /** The version an acknowledgement is read off is the first one that contains its write. */
  lemma AckFacts(w: World, q: LaneName)
    requires Inv(w) && WireAt(w, q).reply.Replied? && WireAt(w, q).reply.ok
    ensures 0 < WireAt(w, q).reply.at < |w.h|
    ensures WriteId(q, w.drafts.Head(q)) in w.h[WireAt(w, q).reply.at].accepted
    ensures WriteId(q, w.drafts.Head(q)) !in w.h[WireAt(w, q).reply.at - 1].accepted
  {
    InvFacts(w, q);
    hide Inv, Lawful, D.IssuedOk;
  }

  lemma PollFacts(w: World)
    requires Inv(w)
    ensures Lawful(w.h) && (w.drafts.poll.Full? || w.drafts.poll.Unchanged? ==> w.drafts.poll.at < |w.h|)
  {
    InvFacts(w, Repeater);
    hide Inv, Lawful;
  }

  lemma FirstAccepted(h: seq<Version>, id: WriteId, first: nat, k: nat)
    requires Lawful(h) && 0 < first < |h| && k < |h|
    requires id in h[first].accepted && id !in h[first - 1].accepted
    ensures id in h[k].accepted <==> first <= k
  {
    if first <= k {
      AcceptedGrows(h, first, k);
    } else {
      AcceptedGrows(h, k, first - 1);
    }
  }

  /** A delivered snapshot contains a write acknowledged before exactly when the server gave it no
      earlier than the acknowledgement. So with answers delivered in the server's order it always does. */
  lemma SnapshotContainsAcknowledged(ws: seq<World>, es: seq<Event>, j: nat, k: nat, q: LaneName)
    requires Run(ws, es) && j < k < |es|
    requires es[j] == Draft(D.Settle(q)) && WireAt(ws[j], q).reply.Replied? && WireAt(ws[j], q).reply.ok
    requires es[k] == Draft(D.DeliverPoll) && ws[k].drafts.poll.Full?
    ensures ws[k].drafts.poll.at < |ws[k].h|
    ensures WriteId(q, ws[j].drafts.Head(q)) in ws[k].h[ws[k].drafts.poll.at].accepted
      <==> WireAt(ws[j], q).reply.at <= ws[k].drafts.poll.at
  {
    RunOk(ws, es, j);
    RunOk(ws, es, k);
    AckFacts(ws[j], q);
    PollFacts(ws[k]);
    HistoryGrows(ws, es, j, k);
    hide Run, Inv, D.Enabled, D.Step, Enabled, Step;
    FirstAccepted(ws[k].h, WriteId(q, ws[j].drafts.Head(q)), WireAt(ws[j], q).reply.at, ws[k].drafts.poll.at);
  }

  // ---------------------------------------------------------------- convergence

  predicate Quiet(e: Event) {
    !Issues(e, Repeater) && !Issues(e, Intruder)
  }

  predicate NothingPending(w: World) {
    LaneAt(w, Repeater).pending == 0 && LaneAt(w, Intruder).pending == 0
  }

  /** Both drafts are the server's slices at version v. */
  predicate Shows(w: World, v: Version) {
    LaneAt(w, Repeater).draft == Shown(v, Repeater) && LaneAt(w, Intruder).draft == Shown(v, Intruder)
  }

  /** The poll under way, if any, was sent after the last edit, and a 304 to it would be right. */
  predicate FreshPoll(w: World) {
    var net := w.drafts;
    !net.poll.Idle? ==>
      var t := net.poll.ticket;
      && t.repeaterEpoch == net.core.repeater.epoch && t.intruderEpoch == net.core.intruder.epoch
      && (t.since != 0 ==>
            && 0 <= net.shown < |w.h| && Shows(w, w.h[net.shown])
            && w.h[net.shown].seqNo == t.since && w.h[net.shown].instance == t.instance)
  }

  lemma DraftQuietStep(w: World, e: D.Event)
    requires Lawful(w.h) && ClientOk(w.h, w.drafts.core, w.drafts.shown) && D.Enabled(w.h, w.drafts, e)
    requires D.SeqOk(w.h, w.drafts.core, w.drafts.shown) && D.PollOk(w.h, w.drafts) && D.Counted(w.drafts.core)
    requires Quiet(Draft(e)) && NothingPending(w)
    ensures var w' := World(w.h + D.Appended(e), D.Step(w.h, w.drafts, e), w.notes, w.bench);
      && NothingPending(w')
      && (e == D.DeliverPoll || FreshPoll(w) ==> FreshPoll(w'))
      && (e == D.DeliverPoll && FreshPoll(w) ==> w.drafts.poll.at < |w.h| && Shows(w', w.h[w.drafts.poll.at]))
  {
    if w.drafts.shown >= 0 {
      LawfulWellFormed(w.h, w.drafts.shown);
    }
    if w.drafts.poll.Unchanged? && FreshPoll(w) {
      VersionIdUnique(w.h, w.drafts.shown, w.drafts.poll.at);
    }
    hide SliceOf, Follows, D.Performs, Lawful;
  }

  /** While nothing is pending and nothing is issued, the lanes change by snapshots alone. */
  lemma QuietStep(w: World, e: Event)
    requires Inv(w) && Enabled(w, e) && Quiet(e) && NothingPending(w)
    ensures NothingPending(Step(w, e))
    ensures (e == Draft(D.DeliverPoll) || FreshPoll(w)) ==> FreshPoll(Step(w, e))
    ensures e == Draft(D.DeliverPoll) && FreshPoll(w) ==>
      w.drafts.poll.at < |w.h| && Shows(Step(w, e), w.h[w.drafts.poll.at])
  {
    InvFacts(w, Repeater);
    InvFacts(w, Intruder);
    HistoryStep(w, e);
    hide Inv, Lawful, D.IssuedOk, D.Step, D.Enabled;
    hide B.Step, N.Step, B.Enabled, N.Enabled, B.Refreshed, N.Refreshed, OthersChange;
    if e.Draft? {
      DraftQuietStep(w, e.d);
    }
  }

  /** A poll has been completed between s and i. */
  predicate PolledBetween(es: seq<Event>, s: nat, i: nat)
    requires s <= i <= |es|
  {
    exists p | s <= p < i :: es[p] == Draft(D.DeliverPoll)
  }

  lemma PolledLater(es: seq<Event>, s: nat, i: nat)
    requires s < i <= |es|
    ensures PolledBetween(es, s, i) <==> PolledBetween(es, s, i - 1) || es[i - 1] == Draft(D.DeliverPoll)
  {
  }

  lemma QuietAt(ws: seq<World>, es: seq<Event>, k: nat)
    requires Run(ws, es) && k < |es| && NothingPending(ws[k]) && Quiet(es[k])
    ensures NothingPending(ws[k + 1])
    ensures FreshPoll(ws[k]) || es[k] == Draft(D.DeliverPoll) ==> FreshPoll(ws[k + 1])
  {
    RunOk(ws, es, k);
    SegmentAt(ws, es, k);
    hide Initial, Inv, Step, Enabled, Segment, Quiet, NothingPending, FreshPoll;
    QuietStep(ws[k], es[k]);
  }

  lemma {:induction false} QuietSegment(ws: seq<World>, es: seq<Event>, s: nat, i: nat)
    requires Run(ws, es) && s <= i < |ws| && |ws| == |es| + 1 && NothingPending(ws[s])
    requires forall m | s <= m < i :: Quiet(es[m])
    ensures NothingPending(ws[i])
    ensures FreshPoll(ws[s]) || PolledBetween(es, s, i) ==> FreshPoll(ws[i])
  {
    hide Initial, Step, Enabled, Segment, NothingPending, FreshPoll, Quiet;
    if s < i {
      QuietSegment(ws, es, s, i - 1);
      PolledLater(es, s, i);
      QuietAt(ws, es, i - 1);
    }
  }

  /** Once nothing is pending and nobody types, the second completed poll at the latest leaves
      both drafts as the server had them when it answered, whether with 200 or with 304. */
  lemma Converges(ws: seq<World>, es: seq<Event>, s: nat, p: nat, i: nat)
    requires Run(ws, es) && s <= p < i < |es| && NothingPending(ws[s])
    requires forall m | s <= m < i :: Quiet(es[m])
    requires es[p] == Draft(D.DeliverPoll) && es[i] == Draft(D.DeliverPoll)
    ensures ws[i].drafts.poll.at < |ws[i].h| && Shows(ws[i + 1], ws[i].h[ws[i].drafts.poll.at])
  {
    SegmentAt(ws, es, i);
    assert Quiet(es[i]) && PolledBetween(es, s, i);
    hide *;
    QuietSegment(ws, es, s, i);
    RunOk(ws, es, i);
    QuietStep(ws[i], es[i]);
  }

  // ---------------------------------------------------------------- project isolation

  lemma IssueStep(w: World, e: Event, q: LaneName)
    requires Enabled(w, e)
    ensures WireAt(Step(w, e), q).issued ==
      WireAt(w, q).issued + if Issues(e, q) then [Write(w.drafts.core.gen, w.drafts.core.token, e.d.payload)] else []
  {
    hide D.Performs, B.Step, N.Step, B.Enabled, N.Enabled, B.Refreshed, N.Refreshed, OthersChange, ApplySnapshot;
  }

  /** Write n was typed at some step j and stamped with what the client showed there. */
  lemma {:induction false} IssueOrigin(ws: seq<World>, es: seq<Event>, i: nat, q: LaneName, n: nat) returns (j: nat)
    requires Segment(ws, es) && WireAt(ws[0], q).issued == [] && i < |ws| && n < |WireAt(ws[i], q).issued|
    ensures j < i && Issues(es[j], q) && |WireAt(ws[j], q).issued| == n
    ensures WireAt(ws[i], q).issued[n] == Write(ws[j].drafts.core.gen, ws[j].drafts.core.token, es[j].d.payload)
  {
    hide Step, Enabled;
    IssueStep(ws[i - 1], es[i - 1], q);
    if n < |WireAt(ws[i - 1], q).issued| {
      j := IssueOrigin(ws, es, i - 1, q, n);
    } else {
      j := i - 1;
    }
  }

  lemma StartsEmpty(w: World, q: LaneName)
    requires Initial(w)
    ensures WireAt(w, q).issued == []
  {
  }

  /** An accepted write changes the project it was typed in and no other, exactly when the page had
      any usable snapshot at the time: before the first one a write carries no historyGeneration. */
  lemma AcceptedWhereTyped(ws: seq<World>, es: seq<Event>, i: nat, q: LaneName, n: nat, k: nat)
    requires Run(ws, es) && i < |ws| && 0 < k < |ws[i].h|
    requires WriteId(q, n) in ws[i].h[k].accepted && WriteId(q, n) !in ws[i].h[k - 1].accepted
    ensures exists j | 0 <= j < i ::
      && Issues(es[j], q) && |WireAt(ws[j], q).issued| == n
      && (ws[j].drafts.shown >= 0 <==> ws[i].h[k].gen == ws[j].drafts.core.gen)
  {
    RunOk(ws, es, i);
    InvFacts(ws[i], q);
    Landed(ws[i], q, n, k);
    StartsEmpty(ws[0], q);
    var h, w := ws[i].h, WireAt(ws[i], q);
    var j := IssueOrigin(ws, es, i, q, n);
    RunOk(ws, es, j);
    InvFacts(ws[j], q);
    HistoryGrows(ws, es, j, i);
    var t := ws[j].drafts.shown;
    LawfulWellFormed(h, k);
    if t >= 0 {
      LawfulWellFormed(h, t);
      hide Inv, Initial, Segment, Lawful;
      if t <= k {
        GenerationBlock(h, t, t, k);
      } else {
        GenerationBlock(h, k, k, t);
      }
    }
  }

  lemma Landed(w: World, q: LaneName, n: nat, k: nat)
    requires Inv(w) && 0 < k < |w.h| && WriteId(q, n) in w.h[k].accepted && WriteId(q, n) !in w.h[k - 1].accepted
    ensures n < |WireAt(w, q).issued| && D.Stamped(w.h[k], WireAt(w, q).issued[n])
  {
    assert D.LandedOk(w.h, WireAt(w, q), q);
  }

  lemma ShownStep(w: World, e: Event)
    requires Inv(w) && Enabled(w, e)
    ensures w.drafts.shown <= Step(w, e).drafts.shown
  {
    if e.Draft? {
      D.Frame(w.h, w.drafts, e.d);
    }
    hide Inv, D.Step, B.Step, N.Step, D.Enabled, B.Enabled, N.Enabled, B.Refreshed, N.Refreshed, OthersChange;
  }

  lemma ShownAt(ws: seq<World>, es: seq<Event>, k: nat)
    requires Run(ws, es) && k < |es|
    ensures ws[k].drafts.shown <= ws[k + 1].drafts.shown
  {
    RunOk(ws, es, k);
    SegmentAt(ws, es, k);
    hide Initial, Inv, Step, Enabled, Segment;
    ShownStep(ws[k], es[k]);
  }

  lemma {:induction false} ShownGrows(ws: seq<World>, es: seq<Event>, i: nat, j: nat)
    requires Run(ws, es) && i <= j < |ws|
    ensures ws[i].drafts.shown <= ws[j].drafts.shown
  {
    hide Initial, Step, Enabled;
    if i < j {
      ShownGrows(ws, es, i, j - 1);
      ShownAt(ws, es, j - 1);
    }
  }

  /** A client that shows the same project at two moments has shown no other in between. */
  lemma SameProjectBetween(ws: seq<World>, es: seq<Event>, j: nat, m: nat, k: nat)
    requires Run(ws, es) && j <= m <= k < |ws| && ws[j].drafts.core.gen == ws[k].drafts.core.gen
    ensures ws[m].drafts.core.gen == ws[k].drafts.core.gen
  {
    RunOk(ws, es, j);
    RunOk(ws, es, m);
    RunOk(ws, es, k);
    InvFacts(ws[j], Repeater);
    InvFacts(ws[m], Repeater);
    InvFacts(ws[k], Repeater);
    HistoryGrows(ws, es, j, k);
    HistoryGrows(ws, es, m, k);
    ShownGrows(ws, es, j, m);
    ShownGrows(ws, es, m, k);
    var a, b, c := ws[j].drafts.shown, ws[m].drafts.shown, ws[k].drafts.shown;
    if c >= 0 {
      LawfulWellFormed(ws[k].h, c);
    }
    hide Run, Inv, Lawful;
    if a >= 0 {
      GenerationBlock(ws[k].h, a, b, c);
    }
  }

  predicate Posts(w: World, e: Event, q: LaneName) {
    e == Draft(D.Dispatch(q)) && LaneAt(w, q).queue != [] && MayPost(w.drafts.core, q)
  }

  /** A write leaves for the server only if the client has shown one project, the one it was typed
      in, from the moment it was typed; and it carries that moment's historyGeneration. */
  lemma PostedWhereTyped(ws: seq<World>, es: seq<Event>, k: nat, q: LaneName)
    requires Run(ws, es) && k < |es| && Posts(ws[k], es[k], q)
    ensures exists j | 0 <= j < k ::
      && Issues(es[j], q)
      && LaneAt(ws[k], q).queue[0] == Write(ws[j].drafts.core.gen, ws[j].drafts.core.token, es[j].d.payload)
      && forall m | j <= m <= k :: ws[m].drafts.core.gen == ws[j].drafts.core.gen
  {
    RunOk(ws, es, k);
    InvFacts(ws[k], q);
    StartsEmpty(ws[0], q);
    var j := IssueOrigin(ws, es, k, q, ws[k].drafts.Head(q));
    forall m | j <= m <= k ensures ws[m].drafts.core.gen == ws[j].drafts.core.gen {
      SameProjectBetween(ws, es, j, m, k);
    }
    hide Run, Inv, Lawful;
  }

  // ---------------------------------------------------------------- queue discipline

  /** The pending counter counts the writes issued but not settled, and they settle in issue order. */
  lemma PendingCounts(ws: seq<World>, es: seq<Event>, i: nat, q: LaneName)
    requires Run(ws, es) && i < |ws|
    ensures LaneAt(ws[i], q).pending == |WireAt(ws[i], q).issued| - ws[i].drafts.Head(q)
    ensures LaneAt(ws[i], q).queue == WireAt(ws[i], q).issued[ws[i].drafts.Head(q)..]
  {
    RunOk(ws, es, i);
    InvFacts(ws[i], q);
    hide Run, Inv;
  }

  lemma DraftHeadStep(h: seq<Version>, net: D.Net, e: D.Event, q: LaneName)
    requires |h| > 0 && D.QueueOk(h, net.core.Lane(q), net.Wire(q), q) && D.Enabled(h, net, e)
    ensures var net' := D.Step(h, net, e);
      && net.Head(q) <= net'.Head(q)
      && (net.core.Lane(q).posted || (e == D.Dispatch(q) && MayPost(net.core, q)) ==>
            net.Head(q) < net'.Head(q) || net'.core.Lane(q).posted)
  {
    hide Follows, D.Performs, SliceOf;
  }

  lemma HeadStep(w: World, e: Event, q: LaneName)
    requires Inv(w) && Enabled(w, e)
    ensures var w' := Step(w, e);
      && w.drafts.Head(q) <= w'.drafts.Head(q)
      && (LaneAt(w, q).posted || Posts(w, e, q) ==> w.drafts.Head(q) < w'.drafts.Head(q) || LaneAt(w', q).posted)
  {
    InvFacts(w, q);
    hide Inv, Lawful, D.QueueOk, D.IssuedOk, D.PollOk, D.SeqOk, D.Step, D.Enabled;
    hide B.Step, N.Step, B.Enabled, N.Enabled, B.Refreshed, N.Refreshed, OthersChange;
    if e.Draft? {
      DraftHeadStep(w.h, w.drafts, e.d, q);
    }
  }

  lemma HeadAt(ws: seq<World>, es: seq<Event>, k: nat, q: LaneName)
    requires Run(ws, es) && k < |es|
    ensures ws[k].drafts.Head(q) <= ws[k + 1].drafts.Head(q)
    ensures LaneAt(ws[k], q).posted || Posts(ws[k], es[k], q) ==>
      ws[k].drafts.Head(q) < ws[k + 1].drafts.Head(q) || LaneAt(ws[k + 1], q).posted
  {
    RunOk(ws, es, k);
    SegmentAt(ws, es, k);
    hide Initial, Inv, Step, Enabled, Segment, LaneAt;
    HeadStep(ws[k], es[k], q);
  }

  lemma {:induction false} HeadMoves(ws: seq<World>, es: seq<Event>, j: nat, k: nat, q: LaneName)
    requires Run(ws, es) && j < k < |ws| && Posts(ws[j], es[j], q)
    ensures ws[j].drafts.Head(q) < ws[k].drafts.Head(q)
         || (ws[j].drafts.Head(q) == ws[k].drafts.Head(q) && LaneAt(ws[k], q).posted)
  {
    hide Initial, Inv, Step, Enabled, LaneAt;
    HeadAt(ws, es, k - 1, q);
    if j + 1 < k {
      HeadMoves(ws, es, j, k - 1, q);
    }
  }

  /** Requests leave in issue order, never the same write twice, and never while another is out. */
  lemma PostsInOrder(ws: seq<World>, es: seq<Event>, j: nat, k: nat, q: LaneName)
    requires Run(ws, es) && j < k < |es| && Posts(ws[j], es[j], q) && Posts(ws[k], es[k], q)
    ensures ws[j].drafts.Head(q) < ws[k].drafts.Head(q) && !LaneAt(ws[k], q).posted
  {
    HeadMoves(ws, es, j, k, q);
  }

  /** However a Repeater or Intruder write ends, the next one of the shown project can leave. */
  lemma FailureDoesNotBlock(ws: seq<World>, es: seq<Event>, i: nat, q: LaneName)
    requires Run(ws, es) && i < |es| && es[i] in {Draft(D.Settle(q)), Draft(D.TimeOut(q))}
    requires |LaneAt(ws[i], q).queue| > 1 && LaneAt(ws[i], q).queue[1].gen == ws[i].drafts.core.gen
    ensures Enabled(ws[i + 1], Draft(D.Dispatch(q))) && Posts(ws[i + 1], Draft(D.Dispatch(q)), q)
    ensures ws[i + 1].drafts.core.seqNo == 0
  {
    hide Inv, D.IssuedOk, D.SeqOk, D.PollOk, Initial;
    RunOk(ws, es, i);
    InvFacts(ws[i], q);
  }
}

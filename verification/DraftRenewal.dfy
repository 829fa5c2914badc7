/**
 * When a delivered poll replaces a draft, what NL._seq is afterwards, and when the page is connected, told by the
 * events of the run.
 */
module DraftRenewal {
  import opened Basics
  import opened ServerHistory
  import opened ClientState
  import opened ClientServer
  import S = SyncTheorems
  import Q = QueueTheorems
  import D = DraftSync
  import N = NotesSync
  import B = BenchSync

  // ---------------------------------------------------------------- what a version shows

  /** The server's slice; a version without one shows the fields of an empty tab. */
  lemma ShownIs(v: Version)
    ensures Shown(v, Repeater) == match v.repeater case Some(s) => s case None =>
      map["host" := "", "port" := "443", "tls" := "true", "request" := "", "response" := "", "statusLine" := "",
          "autoContentLength" := "true"]
    ensures Shown(v, Intruder) == match v.intruder case Some(s) => s case None =>
      map["host" := "", "port" := "443", "tls" := "true", "template" := "", "payloads" := "[]", "results" := "[]",
          "running" := "false", "concurrency" := "10", "throttleMs" := "0", "attackType" := "0", "positions" := "0",
          "payloadSets" := "[]"]
  {
  }

  // ---------------------------------------------------------------- replacement

  /** The poll sent at j, and no later one, is the one under way at i. */
  predicate SentAt(es: seq<Event>, j: nat, i: nat)
    requires i <= |es|
  {
    j < i && es[j] == Draft(D.SendPoll) && forall m | j < m < i :: es[m] != Draft(D.SendPoll)
  }

  /** The snapshot delivered at i, of a poll sent at j, is of another project than the one shown, or finds the draft of q
      idle: none of its writes pending, and none typed since the poll was sent. */
  predicate Idle(ws: seq<World>, es: seq<Event>, j: nat, i: nat, q: LaneName)
    requires i < |es| < |ws| && ws[i].drafts.poll.Full? && ws[i].drafts.poll.at < |ws[i].h|
  {
    || ws[i].h[ws[i].drafts.poll.at].gen != ws[i].drafts.core.gen
    || (S.LaneAt(ws[i], q).pending == 0 && forall m | j <= m < i :: !S.Issues(es[m], q))
  }

  lemma DeliveredLocal(h: seq<Version>, net: D.Net, q: LaneName)
    requires |h| > 0 && D.Enabled(h, net, D.DeliverPoll) && net.poll.Full?
    ensures var c, c', v, t := net.core, D.Step(h, net, D.DeliverPoll).core, h[net.poll.at], net.poll.ticket;
      && c'.gen == v.gen && c'.connected
      && c'.Lane(q).draft == (if v.gen != c.gen || (c.Lane(q).pending == 0 && t.Epoch(q) == c.Lane(q).epoch)
                              then Shown(v, q) else c.Lane(q).draft)
      && c'.seqNo == (if v.gen != c.gen
                         || (c.repeater.pending == 0 && t.repeaterEpoch == c.repeater.epoch
                             && c.intruder.pending == 0 && t.intruderEpoch == c.intruder.epoch)
                      then v.seqNo else 0)
  {
    hide Follows, D.Performs, SliceOf;
  }

  lemma DeliveredAt(ws: seq<World>, es: seq<Event>, i: nat, q: LaneName)
    requires Run(ws, es) && i < |es| && es[i] == Draft(D.DeliverPoll) && ws[i].drafts.poll.Full?
    ensures ws[i].drafts.poll.at < |ws[i].h|
    ensures var c, c', v, t := ws[i].drafts.core, ws[i + 1].drafts.core, ws[i].h[ws[i].drafts.poll.at], ws[i].drafts.poll.ticket;
      && c'.gen == v.gen && c'.connected
      && c'.Lane(q).draft == (if v.gen != c.gen || (c.Lane(q).pending == 0 && t.Epoch(q) == c.Lane(q).epoch)
                              then Shown(v, q) else c.Lane(q).draft)
      && c'.seqNo == (if v.gen != c.gen
                         || (c.repeater.pending == 0 && t.repeaterEpoch == c.repeater.epoch
                             && c.intruder.pending == 0 && t.intruderEpoch == c.intruder.epoch)
                      then v.seqNo else 0)
  {
    S.SegmentAt(ws, es, i);
    DraftStepIs(ws[i], es[i]);
    hide Step, Enabled, Segment, Initial;
    DeliveredLocal(ws[i].h, ws[i].drafts, q);
  }

  lemma DraftStepIs(w: World, e: Event)
    requires Enabled(w, e) && e.Draft?
    ensures |w.h| > 0 && D.Enabled(w.h, w.drafts, e.d) && Step(w, e).drafts == D.Step(w.h, w.drafts, e.d)
  {
    hide D.Step, D.Enabled, N.Refreshed, B.Refreshed;
  }

  /** EXACTLY WHEN A SNAPSHOT REPLACES A DRAFT, and what NL._seq is then: a draft becomes the server's slice if the project
      has changed, whatever is pending, or if none of its writes is pending and none was typed since the poll was sent;
      otherwise it stays. NL._seq is the snapshot's if both drafts were replaced, and 0 if one was not. */
  lemma ReplacedExactly(ws: seq<World>, es: seq<Event>, i: nat, q: LaneName) returns (j: nat)
    requires Run(ws, es) && i < |es| && es[i] == Draft(D.DeliverPoll) && ws[i].drafts.poll.Full?
    ensures SentAt(es, j, i) && ws[i].drafts.poll.at < |ws[i].h| && |es| < |ws|
    ensures var v, c' := ws[i].h[ws[i].drafts.poll.at], ws[i + 1].drafts.core;
      && c'.gen == v.gen
      && c'.Lane(q).draft == (if Idle(ws, es, j, i, q) then Shown(v, q) else S.LaneAt(ws[i], q).draft)
      && c'.seqNo == (if Idle(ws, es, j, i, Repeater) && Idle(ws, es, j, i, Intruder) then v.seqNo else 0)
  {
    S.StartsIdle(ws[0]);
    DeliveredAt(ws, es, i, q);
    hide Step, Enabled, Initial;
    j := S.PollOrigin(ws, es, i);
    S.EpochCounts(ws, es, j, i, Repeater);
    S.EpochCounts(ws, es, j, i, Intruder);
  }

  // ---------------------------------------------------------------- NL._seq elsewhere

  /** A Repeater, Intruder or Sequencer write leaves its queue in this step. */
  predicate Settles(w: World, w': World) {
    || |w'.drafts.core.repeater.queue| < |w.drafts.core.repeater.queue|
    || |w'.drafts.core.intruder.queue| < |w.drafts.core.intruder.queue|
    || |w'.bench.state.queue| < |w.bench.state.queue|
  }

  lemma SeqLocal(h: seq<Version>, net: D.Net, e: D.Event)
    requires |h| > 0 && D.Enabled(h, net, e) && !e.DeliverPoll?
    ensures var c, c' := net.core, D.Step(h, net, e).core;
      && c'.seqNo == (if e.FailPoll? || |c'.repeater.queue| < |c.repeater.queue| || |c'.intruder.queue| < |c.intruder.queue|
                      then 0 else c.seqNo)
      && c'.connected == (c.connected && !e.FailPoll?)
  {
    hide Follows, D.Performs;
  }

  lemma SeqStep(w: World, e: Event)
    requires Enabled(w, e) && e != Draft(D.DeliverPoll)
    ensures var c, c' := w.drafts.core, Step(w, e).drafts.core;
      && c'.seqNo == (if e == Draft(D.FailPoll) || Settles(w, Step(w, e)) then 0 else c.seqNo)
      && c'.connected == (c.connected && e != Draft(D.FailPoll))
  {
    hide D.Step, B.Step, N.Step, D.Enabled, B.Enabled, N.Enabled, B.Refreshed, N.Refreshed, OthersChange;
    if e.Draft? {
      SeqLocal(w.h, w.drafts, e.d);
    }
  }

  lemma UnchangedStep(w: World, e: Event)
    requires Enabled(w, e) && e == Draft(D.DeliverPoll) && w.drafts.poll.Unchanged?
    ensures Step(w, e).drafts.core == w.drafts.core
  {
    hide N.Refreshed, B.Refreshed;
  }

  /** NL._seq between full snapshots: a failed poll and every settled write reset it, and nothing else touches it. */
  lemma SeqOtherwise(ws: seq<World>, es: seq<Event>, i: nat)
    requires Run(ws, es) && i < |es| && !(es[i] == Draft(D.DeliverPoll) && ws[i].drafts.poll.Full?)
    ensures ws[i + 1].drafts.core.seqNo ==
      if es[i] == Draft(D.FailPoll) || (es[i] != Draft(D.DeliverPoll) && Settles(ws[i], ws[i + 1])) then 0 else ws[i].drafts.core.seqNo
  {
    S.SegmentAt(ws, es, i);
    if es[i] == Draft(D.DeliverPoll) {
      RunOk(ws, es, i);
      DraftStepIs(ws[i], es[i]);
      UnchangedStep(ws[i], es[i]);
    } else {
      SeqStep(ws[i], es[i]);
    }
    hide Inv, Step, Initial, Segment, B.Enabled, N.Enabled;
  }

  // ---------------------------------------------------------------- the sending

  lemma SentLocal(h: seq<Version>, net: D.Net, q: LaneName)
    requires |h| > 0 && D.Enabled(h, net, D.Dispatch(q))
    ensures var l, l' := net.core.Lane(q), D.Step(h, net, D.Dispatch(q)).core.Lane(q);
      && l.queue != [] && (l'.posted <==> l.queue[0].gen == net.core.gen)
      && l'.queue == (if l'.posted then l.queue else l.queue[1..])
      && l'.pending == (if l'.posted then l.pending else l.pending - 1)
  {
    hide Follows, D.Performs;
  }

  /** A write whose turn comes is posted exactly if its project is still shown; otherwise it is dropped. */
  lemma SentExactly(ws: seq<World>, es: seq<Event>, i: nat, q: LaneName)
    requires Run(ws, es) && i < |es| && es[i] == Draft(D.Dispatch(q))
    ensures var l, l' := S.LaneAt(ws[i], q), S.LaneAt(ws[i + 1], q);
      && l.queue != [] && (l'.posted <==> l.queue[0].gen == ws[i].drafts.core.gen)
      && l'.queue == (if l'.posted then l.queue else l.queue[1..])
      && l'.pending == (if l'.posted then l.pending else l.pending - 1)
  {
    S.SegmentAt(ws, es, i);
    DraftStepIs(ws[i], es[i]);
    hide Step, Enabled, Segment, Initial;
    SentLocal(ws[i].h, ws[i].drafts, q);
  }

  // ---------------------------------------------------------------- the connection

  /** A disconnected page asks for everything. */
  predicate AsksForAll(w: World) {
    !w.drafts.core.connected ==> w.drafts.core.seqNo == 0 && (!w.drafts.poll.Idle? ==> w.drafts.poll.ticket.since == 0)
  }

  lemma AsksForAllStep(w: World, e: Event)
    requires Inv(w) && Enabled(w, e) && AsksForAll(w)
    ensures AsksForAll(Step(w, e))
    ensures e == Draft(D.DeliverPoll) ==> Step(w, e).drafts.core.connected && (!w.drafts.core.connected ==> w.drafts.poll.Full?)
  {
    var w' := Step(w, e);
    S.InvFacts(w, Repeater);
    if e == Draft(D.DeliverPoll) {
      DraftStepIs(w, e);
      if w.drafts.poll.Full? {
        DeliveredLocal(w.h, w.drafts, Repeater);
      } else {
        UnchangedStep(w, e);
      }
    } else {
      SeqStep(w, e);
      if !w'.drafts.poll.Idle? {
        S.PollStep(w, e);
      }
      if e == Draft(D.FailPoll) {
        DraftStepIs(w, e);
      }
    }
    hide Inv, Enabled, Step, Lawful, D.QueueOk, D.IssuedOk, D.SeqOk, ApplySnapshot;
  }

  lemma AsksForAllStart(w: World)
    requires Initial(w)
    ensures AsksForAll(w)
  {
  }

  lemma {:induction false} AsksForAllAt(ws: seq<World>, es: seq<Event>, i: nat)
    requires Run(ws, es) && i < |ws|
    ensures AsksForAll(ws[i])
  {
    hide Inv, Initial, Step, Enabled, AsksForAll;
    if i == 0 {
      AsksForAllStart(ws[0]);
    } else {
      AsksForAllAt(ws, es, i - 1);
      RunOk(ws, es, i - 1);
      AsksForAllStep(ws[i - 1], es[i - 1]);
      assert ws[i] == Step(ws[i - 1], es[i - 1]);
    }
  }

  /** THE PAGE RECONNECTS with the next completed poll: NL.connected says how the latest poll ended, and a poll that is
      completed while it is false brings a full snapshot, never a 304. */
  lemma ConnectedExactly(ws: seq<World>, es: seq<Event>, i: nat)
    requires Run(ws, es) && i < |es|
    ensures ws[i + 1].drafts.core.connected ==
      if es[i] == Draft(D.DeliverPoll) then true else if es[i] == Draft(D.FailPoll) then false else ws[i].drafts.core.connected
    ensures es[i] == Draft(D.DeliverPoll) && !ws[i].drafts.core.connected ==> ws[i].drafts.poll.Full?
  {
    S.SegmentAt(ws, es, i);
    RunOk(ws, es, i);
    AsksForAllAt(ws, es, i);
    hide Inv, Initial, Segment, AsksForAll, Step, Enabled;
    if es[i] == Draft(D.DeliverPoll) {
      AsksForAllStep(ws[i], es[i]);
    } else {
      SeqStep(ws[i], es[i]);
    }
  }
}

/**
 * What happens when an answer about notes is overtaken: a run that ends with old notes on the
 * page, and with nothing under way that would replace them.
 */
module LateAnswers {
  import opened Basics
  import opened ServerHistory
  import opened ClientState
  import opened ClientServer
  import D = DraftSync
  import N = NotesSync

  const HERE := Generation("i", "p", "t")

  /** One project whose notes change from version to version. */
  function NotesVersion(seqNo: nat, rev: nat, note: string, accepted: set<WriteId>): Version {
    Version("i", seqNo, HERE, None, None, rev, map[1 := note], 1, map[], 1, [], accepted)
  }

  const V0 := NotesVersion(1, 1, "old", {})
  const V1 := NotesVersion(2, 2, "ours", {WriteId(Queue.Notes, 0)})
  const V2 := NotesVersion(3, 3, "theirs", {WriteId(Queue.Notes, 0)})

  lemma SegmentSnoc(ws: seq<World>, es: seq<Event>, e: Event)
    requires Segment(ws, es) && Enabled(ws[|es|], e)
    ensures Segment(ws + [Step(ws[|es|], e)], es + [e])
  {
    hide Enabled, Step;
  }

  /** The page with idle drafts, its poll, and its notes. */
  predicate At(w: World, h: seq<Version>, seqNo: nat, poll: D.Poll, shown: int, notes: N.Net) {
    && w.h == h && w.notes == notes && w.drafts.poll == poll && w.drafts.shown == shown
    && w.drafts.core == Core.Core(HERE, "t", "i", seqNo, true,
         Lane.Lane(REPEATER_DEFAULT, 0, 0, [], false), Lane.Lane(INTRUDER_DEFAULT, 0, 0, [], false))
  }

  const WRITE := N.NoteWrite(HERE, "t")
  const TICKET := D.Ticket(0, "i", 0, 0)

  function Notes(bootRev: nat, loaded: Option<nat>, note: string, pending: Option<(Generation, nat)>, queue: seq<N.NoteWrite>,
                 posted: bool, reply: Option<nat>, fetches: seq<N.Fetch>, loadedAt: int): N.Net
  {
    N.Net(N.NoteState(bootRev, if loaded.Some? then map[1 := note] else map[], loaded, false, 0, pending, 0, queue, posted),
          reply, fetches, queue, {}, loadedAt, -1)
  }

  const NOTES0 := Notes(1, None, "", None, [], false, None, [], -1)
  const NOTES3 := Notes(1, None, "", None, [WRITE], true, Some(1), [], -1)
  const NOTES7 := Notes(3, None, "", None, [WRITE], true, Some(1), [], -1)
  const NOTES10 := Notes(3, Some(3), "theirs", None, [WRITE], true, Some(1), [], 2)

  lemma ServerRules()
    ensures Lawful([V0]) && Follows([V0], V1) && Follows([V0, V1], V2) && OthersChange([V0, V1], V2)
  {
    assert [V0, V1][0] == V0 && [V0, V1][1] == V1;
  }

  lemma Loaded() returns (w: World)
    ensures Initial(w) && At(w, [V0], 0, D.Idle, 0, NOTES0)
  {
    ServerRules();
    w := Start([V0], true);
    assert w == Start(w.h, true);
    hide Lawful, Follows, OthersChange;
  }

  /** The note is typed, sent, and stored as revision 2; its answer stays on the way. */
  lemma Stored(w: World) returns (ws: seq<World>, es: seq<Event>)
    requires At(w, [V0], 0, D.Idle, 0, NOTES0)
    ensures Segment(ws, es) && ws[0] == w && At(ws[|es|], [V0, V1], 0, D.Idle, 0, NOTES3)
  {
    ServerRules();
    ws, es := [w], [];
    ws, es := ws + [Step(ws[0], Note(N.Annotate))], es + [Note(N.Annotate)];
    assert ws[1].notes == Notes(1, None, "", None, [WRITE], false, None, [], -1);
    ws, es := ws + [Step(ws[1], Note(N.Dispatch))], es + [Note(N.Dispatch)];
    assert ws[2].notes == Notes(1, None, "", None, [WRITE], true, None, [], -1);
    ws, es := ws + [Step(ws[2], Note(N.AcceptNote(V1)))], es + [Note(N.AcceptNote(V1))];
    hide Follows, Lawful, OthersChange;
  }

  /** Somebody else changes the note, and the page polls. */
  lemma Asked(w: World) returns (ws: seq<World>, es: seq<Event>)
    requires At(w, [V0, V1], 0, D.Idle, 0, NOTES3)
    ensures Segment(ws, es) && ws[0] == w && At(ws[|es|], [V0, V1, V2], 0, D.Asked(TICKET), 0, NOTES3)
  {
    ServerRules();
    ws, es := [w, Step(w, Server(V2))], [Server(V2)];
    assert At(ws[1], [V0, V1, V2], 0, D.Idle, 0, NOTES3);
    ws, es := ws + [Step(ws[1], Draft(D.SendPoll))], es + [Draft(D.SendPoll)];
    hide Follows, Lawful, OthersChange;
  }

  /** The poll tells the page of revision 3. */
  lemma Told(w: World) returns (ws: seq<World>, es: seq<Event>)
    requires At(w, [V0, V1, V2], 0, D.Asked(TICKET), 0, NOTES3)
    ensures Segment(ws, es) && ws[0] == w && At(ws[|es|], [V0, V1, V2], 3, D.Idle, 2, NOTES7)
  {
    ws, es := [w, Step(w, Draft(D.AnswerPoll))], [Draft(D.AnswerPoll)];
    assert At(ws[1], [V0, V1, V2], 0, D.Full(TICKET, 2), 0, NOTES3);
    ws, es := ws + [Step(ws[1], Draft(D.DeliverPoll))], es + [Draft(D.DeliverPoll)];
    hide Follows, Lawful, OthersChange;
  }

  /** The page fetches revision 3 and shows it. */
  lemma Fetched(w: World) returns (ws: seq<World>, es: seq<Event>)
    requires At(w, [V0, V1, V2], 3, D.Idle, 2, NOTES7)
    ensures Segment(ws, es) && ws[0] == w && At(ws[|es|], [V0, V1, V2], 3, D.Idle, 2, NOTES10)
  {
    var h, key := [V0, V1, V2], Some((HERE, 3));
    ws, es := [w], [];
    ws, es := ws + [Step(ws[0], Note(N.StartFetch(0)))], es + [Note(N.StartFetch(0))];
    assert At(ws[1], h, 3, D.Idle, 2, Notes(3, None, "", key, [WRITE], true, Some(1), [N.Fetch(HERE, 3, 0, None)], -1));
    ws, es := ws + [Step(ws[1], Note(N.AnswerFetch(0)))], es + [Note(N.AnswerFetch(0))];
    assert At(ws[2], h, 3, D.Idle, 2, Notes(3, None, "", key, [WRITE], true, Some(1), [N.Fetch(HERE, 3, 0, Some(2))], -1));
    ws, es := ws + [Step(ws[2], Note(N.DeliverFetch(0)))], es + [Note(N.DeliverFetch(0))];
    hide Follows, Lawful, OthersChange;
  }

  lemma SegmentConcat(ws: seq<World>, es: seq<Event>, vs: seq<World>, fs: seq<Event>)
    requires Segment(ws, es) && Segment(vs, fs) && vs[0] == ws[|es|]
    ensures Segment(ws + vs[1..], es + fs) && (ws + vs[1..])[0] == ws[0] && (ws + vs[1..])[|es| + |fs|] == vs[|fs|]
  {
    hide Enabled, Step;
    var xs, gs := ws + vs[1..], es + fs;
    forall i | 0 <= i < |gs| ensures Enabled(xs[i], gs[i]) && xs[i + 1] == Step(xs[i], gs[i]) {
      if i < |es| {
        assert xs[i] == ws[i] && xs[i + 1] == ws[i + 1] && gs[i] == es[i];
      } else {
        assert xs[i] == vs[i - |es|] && xs[i + 1] == vs[i - |es| + 1] && gs[i] == fs[i - |es|];
      }
    }
  }

  /** The late acknowledgement of revision 2 puts the older notes back. */
  lemma Acknowledged(w: World) returns (w': World)
    requires At(w, [V0, V1, V2], 3, D.Idle, 2, NOTES10)
    ensures Enabled(w, Note(N.DeliverNote)) && w' == Step(w, Note(N.DeliverNote))
    ensures N.Lowered(w.notes.state, w'.notes.state)
    ensures w'.h == w.h && w'.drafts == w.drafts && w'.h[2].seqNo == 3 && w'.h[2].instance == "i"
    ensures w'.notes.state.loaded == Some(2) && w'.notes.state.bootRev == 2 && w'.h[2].notesRev == 3
    ensures w'.notes.state.queue == [] && w'.notes.fetches == [] && w'.notes.state.notes != w'.h[2].notes
  {
    w' := Step(w, Note(N.DeliverNote));
    assert w'.notes.state.notes == map[1 := "ours"] && map[1 := "ours"][1] != map[1 := "theirs"][1];
    hide Follows, Lawful, OthersChange;
  }

  /** Nothing about notes is under way, none will be fetched, and a poll sent now is answered with 304. */
  ghost predicate Settled(w: World) {
    && |w.h| > 0 && w.drafts.poll.Idle? && w.notes.state.queue == [] && w.notes.fetches == []
    && (forall now :: !N.MayFetch(w.drafts.core, w.notes.state, now))
    && D.Answer(w.h, D.Ticket(w.drafts.core.seqNo, w.drafts.core.instance, 0, 0)).Unchanged?
  }

  /** THE LOADED NOTES CAN GO BACK, and stay back, when an acknowledgement is overtaken by a fetch: a run after
      which the page shows older notes than the server has, has nothing under way, and is told that nothing changed. */
  lemma LateAcknowledgement() returns (ws: seq<World>, es: seq<Event>)
    ensures Run(ws, es) && |es| > 0
    ensures N.Lowered(ws[|es| - 1].notes.state, ws[|es|].notes.state)
    ensures var w := ws[|es|]; Settled(w) && w.notes.state.loaded.Some? && w.notes.state.notes != w.h[|w.h| - 1].notes
  {
    hide Enabled, Step, Initial, Notes, N.Lowered;
    var w0 := Loaded();
    ws, es := Stored(w0);
    var vs, fs := Asked(ws[|es|]);
    SegmentConcat(ws, es, vs, fs);
    ws, es := ws + vs[1..], es + fs;
    vs, fs := Told(ws[|es|]);
    SegmentConcat(ws, es, vs, fs);
    ws, es := ws + vs[1..], es + fs;
    vs, fs := Fetched(ws[|es|]);
    SegmentConcat(ws, es, vs, fs);
    ws, es := ws + vs[1..], es + fs;
    var w := Acknowledged(ws[|es|]);
    SegmentSnoc(ws, es, Note(N.DeliverNote));
    ws, es := ws + [w], es + [Note(N.DeliverNote)];
  }

  // ---------------------------------------------------------------- a 304 behind a refused edit

  const EDIT: Slice := map["host" := "typed"]
  const TYPED := Write(HERE, "t", EDIT)
  const ASKED := D.Ticket(1, "i", 0, 0)

  /** The page with an idle Intruder draft and this Repeater lane. */
  predicate Typing(w: World, seqNo: nat, poll: D.Poll, lane: Lane, reply: Reply, issued: seq<Write>) {
    && w.h == [V0] && w.drafts.poll == poll && w.drafts.shown == 0
    && w.drafts.core == Core.Core(HERE, "t", "i", seqNo, true, lane, Lane.Lane(INTRUDER_DEFAULT, 0, 0, [], false))
    && w.drafts.repeater.reply == reply && w.drafts.repeater.issued == issued
  }

  const CLEAN := Lane.Lane(REPEATER_DEFAULT, 0, 0, [], false)

  lemma LoadedDrafts() returns (w: World)
    ensures Initial(w) && Typing(w, 0, D.Idle, CLEAN, NoReply, [])
  {
    ServerRules();
    w := Start([V0], true);
    assert w == Start(w.h, true);
    hide Lawful, Follows, OthersChange;
  }

  /** A first poll names the version shown. */
  lemma FirstPoll(w: World) returns (ws: seq<World>, es: seq<Event>)
    requires Typing(w, 0, D.Idle, CLEAN, NoReply, [])
    ensures Segment(ws, es) && ws[0] == w && Typing(ws[|es|], 1, D.Idle, CLEAN, NoReply, [])
  {
    hide D.Performs, Follows, Lawful, OthersChange, N.Performs, N.Step, N.Enabled;
    ws, es := [w, Step(w, Draft(D.SendPoll))], [Draft(D.SendPoll)];
    assert Typing(ws[1], 0, D.Asked(TICKET), CLEAN, NoReply, []);
    ws, es := ws + [Step(ws[1], Draft(D.AnswerPoll))], es + [Draft(D.AnswerPoll)];
    assert Typing(ws[2], 0, D.Full(TICKET, 0), CLEAN, NoReply, []);
    ws, es := ws + [Step(ws[2], Draft(D.DeliverPoll))], es + [Draft(D.DeliverPoll)];
  }

  /** The next one is answered with 304, which stays on the way. */
  lemma Unmodified(w: World) returns (ws: seq<World>, es: seq<Event>)
    requires Typing(w, 1, D.Idle, CLEAN, NoReply, [])
    ensures Segment(ws, es) && ws[0] == w && Typing(ws[|es|], 1, D.Unchanged(ASKED, 0), CLEAN, NoReply, [])
  {
    ws, es := [w, Step(w, Draft(D.SendPoll))], [Draft(D.SendPoll)];
    assert Typing(ws[1], 1, D.Asked(ASKED), CLEAN, NoReply, []);
    ws, es := ws + [Step(ws[1], Draft(D.AnswerPoll))], es + [Draft(D.AnswerPoll)];
    hide Follows, Lawful, OthersChange;
  }

  const WAITING := Lane.Lane(REPEATER_DEFAULT + EDIT, 1, 1, [TYPED], true)
  const LEFT := Lane.Lane(REPEATER_DEFAULT + EDIT, 1, 0, [], false)

  /** Meanwhile an edit is typed and sent. */
  lemma Typed(w: World) returns (ws: seq<World>, es: seq<Event>)
    requires Typing(w, 1, D.Unchanged(ASKED, 0), CLEAN, NoReply, [])
    ensures Segment(ws, es) && ws[0] == w && Typing(ws[|es|], 1, D.Unchanged(ASKED, 0), WAITING, NoReply, [TYPED])
  {
    ws, es := [w, Step(w, Draft(D.Issue(Repeater, EDIT, true)))], [Draft(D.Issue(Repeater, EDIT, true))];
    assert Typing(ws[1], 1, D.Unchanged(ASKED, 0), WAITING.(posted := false), NoReply, [TYPED]);
    ws, es := ws + [Step(ws[1], Draft(D.Dispatch(Repeater)))], es + [Draft(D.Dispatch(Repeater))];
    hide Follows, Lawful, OthersChange;
  }

  /** The edit is refused. */
  lemma Refused(w: World) returns (ws: seq<World>, es: seq<Event>)
    requires Typing(w, 1, D.Unchanged(ASKED, 0), WAITING, NoReply, [TYPED])
    ensures Segment(ws, es) && ws[0] == w && Typing(ws[|es|], 0, D.Unchanged(ASKED, 0), LEFT, NoReply, [TYPED])
  {
    ws, es := [w, Step(w, Draft(D.Refuse(Repeater)))], [Draft(D.Refuse(Repeater))];
    assert Typing(ws[1], 1, D.Unchanged(ASKED, 0), WAITING, Replied(false, 0), [TYPED]);
    ws, es := ws + [Step(ws[1], Draft(D.Settle(Repeater)))], es + [Draft(D.Settle(Repeater))];
    hide Follows, Lawful, OthersChange;
  }

  /** A 304 is about to be delivered, nothing is pending, and the Repeater draft shown is in no version. */
  predicate NeverServed(w: World) {
    && Enabled(w, Draft(D.DeliverPoll)) && w.drafts.poll.Unchanged? && w.drafts.core.seqNo == 0
    && w.drafts.core.repeater.pending == 0
    && forall k | 0 <= k < |w.h| :: w.drafts.core.repeater.draft != Shown(w.h[k], Repeater)
  }

  lemma NotServed(w: World)
    requires Typing(w, 0, D.Unchanged(ASKED, 0), LEFT, NoReply, [TYPED])
    ensures NeverServed(w)
  {
    assert (REPEATER_DEFAULT + EDIT)["host"] != REPEATER_DEFAULT["host"];
    assert Shown(V0, Repeater) == REPEATER_DEFAULT;
    hide D.Performs, REPEATER_DEFAULT;
  }

  /** A 304 WITH NOTHING PENDING IS NOT ENOUGH on its own: a run in which it arrives behind a refused edit, while
      the page shows a draft the server never had. NL._seq is 0 there, as the exact statement allows. */
  lemma OvertakenNotModified() returns (ws: seq<World>, es: seq<Event>)
    ensures Run(ws, es)
    ensures NeverServed(ws[|es|])
  {
    hide Step, Enabled, Initial, Typing;
    var w0 := LoadedDrafts();
    ws, es := FirstPoll(w0);
    var vs, fs := Unmodified(ws[|es|]);
    SegmentConcat(ws, es, vs, fs);
    ws, es := ws + vs[1..], es + fs;
    vs, fs := Typed(ws[|es|]);
    SegmentConcat(ws, es, vs, fs);
    ws, es := ws + vs[1..], es + fs;
    vs, fs := Refused(ws[|es|]);
    SegmentConcat(ws, es, vs, fs);
    ws, es := ws + vs[1..], es + fs;
    NotServed(ws[|es|]);
  }
}

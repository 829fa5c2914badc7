/**
 * Runs of client and server at which the conditions of the theorems about writes fail: each ends with
 * what the theorems exclude otherwise.
 */
module FailingRuns {
  import opened Basics
  import opened ServerHistory
  import opened ClientState
  import opened ClientServer
  import A = LateAnswers
  import D = DraftSync
  import N = NotesSync
  import B = BenchSync

  const HERE := Generation("i", "p", "t")
  const THERE := Generation("j", "p", "u")

  predicate Goes(w: World, e: Event, w': World) { Enabled(w, e) && Step(w, e) == w' }

  /** A page loaded from server history h, with this Sequencer. */
  function Page(start: seq<Version>, loaded: bool, h: seq<Version>, bench: B.Net): World
    requires |start| > 0
  {
    World(h, D.Start(start, loaded), N.Start(if loaded then SnapshotOf(start[|start| - 1]) else EMPTY_SNAPSHOT), bench)
  }

  // ---------------------------------------------------------------- a lost update

  function Text(gen: Generation, seqNo: nat, draft: Slice, rev: nat, textRev: nat, log: seq<Author>, accepted: set<WriteId>): Version {
    Version(gen.instance, seqNo, gen, None, None, 1, map[], rev, draft, textRev, log, accepted)
  }

  const FIELD: Slice := map["capHost" := "h"]
  const EDIT: Slice := map["text" := "ab"]

  /** "a", then "theirs" behind it, then the field patch, then our text. */
  const T0 := Text(HERE, 1, map["text" := "a"], 1, 1, [], {})
  const T1 := Text(HERE, 2, map["text" := "a\ntheirs"], 2, 2, [Them], {})
  const T2 := Text(HERE, 3, map["text" := "a\ntheirs"] + FIELD, 3, 2, [Them], {WriteId(Queue.Bench, 0)})
  const T3 := Text(HERE, 4, map["text" := "a\ntheirs"] + FIELD + EDIT, 4, 3, [Them, Us(1)], {WriteId(Queue.Bench, 0), WriteId(Queue.Bench, 1)})

  const W0 := B.BenchWrite(HERE, "t", B.Patch(FIELD))
  const W1 := B.BenchWrite(HERE, "t", B.Patch(EDIT))

  function Bench(ws: Option<B.Workspace>, epoch: nat, queue: seq<B.BenchWrite>, posted: bool, fetching: bool, reply: Reply,
                 fetch: Option<B.Fetch>, issued: seq<B.BenchWrite>, sent: map<nat, int>, seenAt: int): B.Net
  {
    B.Net(B.BenchState(ws, "", epoch, |queue|, queue, posted, fetching, Some(1)), reply, fetch, issued,
          seq(|issued|, _ => 0), sent, {}, seenAt)
  }

  const SHOWN0 := Some(B.Workspace(map["text" := "a"], 1, 1))
  const SHOWN1 := Some(B.Workspace(map["text" := "a"] + FIELD, 1, 1))
  const SHOWN2 := Some(B.Workspace(map["text" := "a"] + FIELD + EDIT, 1, 1))
  const KEPT := Some(B.Workspace(map["text" := "a"] + FIELD + EDIT, 3, 2))

  const B0 := Bench(None, 0, [], false, false, NoReply, None, [], map[], -1)
  const B1 := Bench(None, 0, [], false, true, NoReply, Some(B.Fetch(HERE, 0, None)), [], map[], -1)
  const B2 := Bench(None, 0, [], false, true, NoReply, Some(B.Fetch(HERE, 0, Some(0))), [], map[], -1)
  const B3 := Bench(SHOWN0, 0, [], false, false, NoReply, None, [], map[], 0)
  const B4 := Bench(SHOWN1, 1, [W0], false, false, NoReply, None, [W0], map[], 0)
  const B5 := Bench(SHOWN2, 2, [W0, W1], false, false, NoReply, None, [W0, W1], map[], 0)
  const B6 := Bench(SHOWN2, 2, [W0, W1], true, false, NoReply, None, [W0, W1], map[0 := 0], 0)
  const B7 := Bench(SHOWN2, 2, [W0, W1], true, false, Replied(true, 2), None, [W0, W1], map[0 := 0], 0)
  const B8 := Bench(KEPT, 2, [W1], false, false, NoReply, None, [W0, W1], map[0 := 0], 2)
  const B9 := Bench(KEPT, 2, [W1], true, false, NoReply, None, [W0, W1], map[0 := 0, 1 := 2], 2)
  const B10 := Bench(KEPT, 2, [W1], true, false, Replied(true, 3), None, [W0, W1], map[0 := 0, 1 := 2], 2)

  function Here(h: seq<Version>, bench: B.Net): World { Page([T0], true, h, bench) }

  lemma TextRules()
    ensures Lawful([T0]) && Follows([T0], T1) && OthersChange([T0], T1) && Follows([T0, T1], T2) && Follows([T0, T1, T2], T3)
  {
    assert [T0, T1][1] == T1 && [T0, T1][0] == T0 && [T0, T1, T2][2] == T2;
  }

  /** What a Sequencer event does, whatever the rest of the page is. */
  predicate Does(h: seq<Version>, c: Core, shown: int, b: B.Net, e: B.Event, b': B.Net)
    requires |h| > 0
  {
    B.Enabled(h, c, b, e) && B.Step(h, c, shown, b, e) == b'
  }

  lemma HereIs()
    ensures var net := D.Start([T0], true); net.core.gen == HERE && net.core.token == "t" && net.core.seqNo == 0 && net.shown == 0
    ensures Initial(Here([T0], B0))
  {
    TextRules();
    assert Here([T0], B0) == Start([T0], true);
    hide Follows, Lawful, OthersChange;
  }

  lemma Plays(h: seq<Version>, b: B.Net, e: B.Event, b': B.Net, h': seq<Version>)
    requires |h| > 0 && Does(h, D.Start([T0], true).core, 0, b, e, b') && h' == h + B.Appended(e)
    ensures Goes(Here(h, b), Sequencer(e), Here(h', b'))
  {
    HereIs();
    hide D.Start, N.Start, B.Step, B.Enabled, Initial, B.Appended;
  }

  lemma Fetched(c: Core)
    requires c.gen == HERE && c.token == "t"
    ensures Does([T0], c, 0, B0, B.StartFetch, B1) && Does([T0], c, 0, B1, B.AnswerFetch, B2)
    ensures Does([T0], c, 0, B2, B.DeliverFetch, B3)
  {
  }

  lemma Typed(c: Core)
    requires c.gen == HERE && c.token == "t"
    ensures Does([T0], c, 0, B3, B.Issue(B.Patch(FIELD), true), B4)
    ensures Does([T0], c, 0, B4, B.Issue(B.Patch(EDIT), true), B5)
  {
  }

  lemma FieldPerformed(c: Core)
    requires c.gen == HERE && c.token == "t"
    ensures Does([T0, T1], c, 0, B5, B.Dispatch, B6) && Does([T0, T1], c, 0, B6, B.Accept(T2), B7)
    ensures Does([T0, T1, T2], c, 0, B7, B.Deliver("-"), B8)
  {
    TextRules();
    hide Follows, Lawful, OthersChange;
  }

  lemma TextPerformed(c: Core)
    requires c.gen == HERE && c.token == "t"
    ensures Does([T0, T1, T2], c, 0, B8, B.Dispatch, B9) && Does([T0, T1, T2], c, 0, B9, B.Accept(T3), B10)
  {
    TextRules();
    hide Follows, Lawful, OthersChange;
  }

  lemma TheyWrite()
    ensures Goes(Here([T0], B5), Server(T1), Here([T0, T1], B5))
  {
    TextRules();
    hide Follows, Lawful, OthersChange, D.Start, N.Start;
  }

  /** World by world, up to five events lead from the first to the last. */
  lemma FewSteps(ws: seq<World>, es: seq<Event>)
    requires |ws| == |es| + 1 <= 6
    requires |es| > 0 ==> Goes(ws[0], es[0], ws[1])
    requires |es| > 1 ==> Goes(ws[1], es[1], ws[2])
    requires |es| > 2 ==> Goes(ws[2], es[2], ws[3])
    requires |es| > 3 ==> Goes(ws[3], es[3], ws[4])
    requires |es| > 4 ==> Goes(ws[4], es[4], ws[5])
    ensures Segment(ws, es)
  {
    hide Enabled, Step;
  }

  lemma FetchSteps()
    ensures Goes(Here([T0], B0), Sequencer(B.StartFetch), Here([T0], B1))
    ensures Goes(Here([T0], B1), Sequencer(B.AnswerFetch), Here([T0], B2))
    ensures Goes(Here([T0], B2), Sequencer(B.DeliverFetch), Here([T0], B3))
  {
    Fetched(D.Start([T0], true).core) by { HereIs(); }
    hide *;
    Plays([T0], B0, B.StartFetch, B1, [T0]);
    Plays([T0], B1, B.AnswerFetch, B2, [T0]);
    Plays([T0], B2, B.DeliverFetch, B3, [T0]);
  }

  lemma TypingSteps()
    ensures Goes(Here([T0], B3), Sequencer(B.Issue(B.Patch(FIELD), true)), Here([T0], B4))
    ensures Goes(Here([T0], B4), Sequencer(B.Issue(B.Patch(EDIT), true)), Here([T0], B5))
  {
    Typed(D.Start([T0], true).core) by { HereIs(); }
    hide *;
    Plays([T0], B3, B.Issue(B.Patch(FIELD), true), B4, [T0]);
    Plays([T0], B4, B.Issue(B.Patch(EDIT), true), B5, [T0]);
  }

  /** A workspace with "a" is loaded, and two patches are typed over it. */
  lemma TwoPatches() returns (ws: seq<World>, es: seq<Event>)
    ensures Segment(ws, es) && |es| == 5 && ws[0] == Here([T0], B0) && ws[4] == Here([T0], B4) && ws[5] == Here([T0], B5)
    ensures es[4] == Sequencer(B.Issue(B.Patch(EDIT), true))
  {
    hide *;
    FetchSteps();
    TypingSteps();
    ws := [Here([T0], B0), Here([T0], B1), Here([T0], B2), Here([T0], B3), Here([T0], B4), Here([T0], B5)];
    es := [Sequencer(B.StartFetch), Sequencer(B.AnswerFetch), Sequencer(B.DeliverFetch),
           Sequencer(B.Issue(B.Patch(FIELD), true)), Sequencer(B.Issue(B.Patch(EDIT), true))];
    FewSteps(ws, es);
  }

  lemma FieldSteps()
    ensures Goes(Here([T0, T1], B5), Sequencer(B.Dispatch), Here([T0, T1], B6))
    ensures Goes(Here([T0, T1], B6), Sequencer(B.Accept(T2)), Here([T0, T1, T2], B7))
    ensures Goes(Here([T0, T1, T2], B7), Sequencer(B.Deliver("-")), Here([T0, T1, T2], B8))
  {
    FieldPerformed(D.Start([T0], true).core) by { HereIs(); }
    hide *;
    assert [T0, T1] + [T2] == [T0, T1, T2];
    Plays([T0, T1], B5, B.Dispatch, B6, [T0, T1]);
    Plays([T0, T1], B6, B.Accept(T2), B7, [T0, T1, T2]);
    Plays([T0, T1, T2], B7, B.Deliver("-"), B8, [T0, T1, T2]);
  }

  /** Somebody appends to the text; the field patch is performed, and its acknowledgement taken over. */
  lemma FieldPatched() returns (ws: seq<World>, es: seq<Event>)
    ensures Segment(ws, es) && |es| == 4 && ws[0] == Here([T0], B5) && ws[4] == Here([T0, T1, T2], B8)
  {
    hide *;
    TheyWrite();
    FieldSteps();
    ws := [Here([T0], B5), Here([T0, T1], B5), Here([T0, T1], B6), Here([T0, T1, T2], B7), Here([T0, T1, T2], B8)];
    es := [Server(T1), Sequencer(B.Dispatch), Sequencer(B.Accept(T2)), Sequencer(B.Deliver("-"))];
    FewSteps(ws, es);
  }

  lemma TextSent()
    ensures Goes(Here([T0, T1, T2], B8), Sequencer(B.Dispatch), Here([T0, T1, T2], B9))
  {
    TextPerformed(D.Start([T0], true).core) by { HereIs(); }
    hide *;
    Plays([T0, T1, T2], B8, B.Dispatch, B9, [T0, T1, T2]);
  }

  lemma TextAccepted()
    ensures Goes(Here([T0, T1, T2], B9), Sequencer(B.Accept(T3)), Here([T0, T1, T2, T3], B10))
  {
    TextPerformed(D.Start([T0], true).core) by { HereIs(); }
    hide *;
    assert [T0, T1, T2] + [T3] == [T0, T1, T2, T3];
    Plays([T0, T1, T2], B9, B.Accept(T3), B10, [T0, T1, T2, T3]);
  }

  /** The text patch is sent with the new revision, and performed. */
  lemma TextPatched() returns (ws: seq<World>, es: seq<Event>)
    ensures Segment(ws, es) && |es| == 2 && ws[0] == Here([T0, T1, T2], B8) && ws[2] == Here([T0, T1, T2, T3], B10)
  {
    hide *;
    TextSent();
    TextAccepted();
    ws := [Here([T0, T1, T2], B8), Here([T0, T1, T2], B9), Here([T0, T1, T2, T3], B10)];
    es := [Sequencer(B.Dispatch), Sequencer(B.Accept(T3))];
    FewSteps(ws, es);
  }

  /** World w shows the text of version 0, over which the text patch is typed next, as write 1. */
  predicate AboutToType(w: World) {
    && w.h == [T0] && w.drafts.shown == 0 == w.bench.Seen() && |w.bench.issued| == 1
    && w.bench.state.workspace.Some? && w.bench.state.workspace.value.textRev == T0.textRev
  }

  /** Version 3 is the patch performed upon a text that holds somebody else's addition, which it erases. */
  predicate Erased(w: World) {
    && |w.h| == 4 && WriteId(Queue.Bench, 1) in w.h[3].accepted && WriteId(Queue.Bench, 1) !in w.h[2].accepted
    && !B.OnlyUs(w.h, 0, 2) && Corpus(w.h[0]) == "a" && Corpus(w.h[2]) == "a\ntheirs" && Corpus(w.h[3]) == "ab"
  }

  lemma ErasedHere()
    ensures AboutToType(Here([T0], B4)) && Erased(Here([T0, T1, T2, T3], B10))
  {
    HereIs();
    assert T2.textLog[0] == Them && T0.textLog == [];
    hide D.Start, Initial;
  }

  /** A TEXT PATCH CAN ERASE SOMEBODY ELSE'S TEXT. A field patch and then a text patch are typed over "a"; somebody
      appends to the text; the field patch is performed and acknowledged, which moves the revision past that change
      while the draft is kept; the text patch is performed upon a text its author never saw. */
  lemma LostUpdate() returns (ws: seq<World>, es: seq<Event>)
    ensures Run(ws, es) && |es| == 11 && es[4] == Sequencer(B.Issue(B.Patch(EDIT), true)) && B.Patch(EDIT).Checked()
    ensures AboutToType(ws[4]) && Erased(ws[11])
  {
    HereIs();
    ErasedHere();
    hide Initial, Enabled, Step, Here, Erased, AboutToType;
    ws, es := TwoPatches();
    var vs, fs := FieldPatched();
    A.SegmentConcat(ws, es, vs, fs);
    ws, es := ws + vs[1..], es + fs;
    vs, fs := TextPatched();
    A.SegmentConcat(ws, es, vs, fs);
    ws, es := ws + vs[1..], es + fs;
  }

  // ---------------------------------------------------------------- a lost update that came in before the typing

  const PORT: Slice := map["capPort" := "1"]
  const P3 := Text(HERE, 4, T2.draft + PORT, 4, 2, [Them], {WriteId(Queue.Bench, 0), WriteId(Queue.Bench, 1)})
  const P4 := Text(HERE, 5, T2.draft + PORT + EDIT, 5, 3, [Them, Us(2)],
                   {WriteId(Queue.Bench, 0), WriteId(Queue.Bench, 1), WriteId(Queue.Bench, 2)})

  const Y1 := B.BenchWrite(HERE, "t", B.Patch(PORT))
  const Y2 := B.BenchWrite(HERE, "t", B.Patch(EDIT))

  const TWICE: Slice := map["text" := "a"] + FIELD + PORT

  const E5 := Bench(Some(B.Workspace(TWICE, 1, 1)), 2, [W0, Y1], false, false, NoReply, None, [W0, Y1], map[], 0)
  const E6 := Bench(Some(B.Workspace(TWICE, 1, 1)), 2, [W0, Y1], true, false, NoReply, None, [W0, Y1], map[0 := 0], 0)
  const E7 := Bench(Some(B.Workspace(TWICE, 1, 1)), 2, [W0, Y1], true, false, Replied(true, 2), None, [W0, Y1], map[0 := 0], 0)
  const E8 := Bench(Some(B.Workspace(TWICE, 3, 2)), 2, [Y1], false, false, NoReply, None, [W0, Y1], map[0 := 0], 2)
  const E9 := Bench(Some(B.Workspace(TWICE + EDIT, 3, 2)), 3, [Y1, Y2], false, false, NoReply, None, [W0, Y1, Y2], map[0 := 0], 2)
  const E10 := Bench(Some(B.Workspace(TWICE + EDIT, 3, 2)), 3, [Y1, Y2], true, false, NoReply, None, [W0, Y1, Y2],
                     map[0 := 0, 1 := 2], 2)
  const E11 := Bench(Some(B.Workspace(TWICE + EDIT, 3, 2)), 3, [Y1, Y2], true, false, Replied(true, 3), None, [W0, Y1, Y2],
                     map[0 := 0, 1 := 2], 2)
  const E12 := Bench(Some(B.Workspace(TWICE + EDIT, 4, 2)), 3, [Y2], false, false, NoReply, None, [W0, Y1, Y2],
                     map[0 := 0, 1 := 2], 3)
  const E13 := Bench(Some(B.Workspace(TWICE + EDIT, 4, 2)), 3, [Y2], true, false, NoReply, None, [W0, Y1, Y2],
                     map[0 := 0, 1 := 2, 2 := 3], 3)
  const E14 := Bench(Some(B.Workspace(TWICE + EDIT, 4, 2)), 3, [Y2], true, false, Replied(true, 4), None, [W0, Y1, Y2],
                     map[0 := 0, 1 := 2, 2 := 3], 3)

  lemma PortRules()
    ensures Lawful([T0]) && OthersChange([T0], T1) && Follows([T0, T1, T2], P3) && Follows([T0, T1, T2, P3], P4)
  {
    assert [T0, T1, T2][2] == T2 && [T0, T1, T2, P3][3] == P3;
    assert [T0, T1, T2, P3][0] == T0 && [T0, T1, T2, P3][1] == T1 && [T0, T1, T2, P3][2] == T2;
  }

  lemma TwoFields(c: Core)
    requires c.gen == HERE && c.token == "t"
    ensures Does([T0], c, 0, B4, B.Issue(B.Patch(PORT), true), E5)
    ensures Does([T0, T1], c, 0, E5, B.Dispatch, E6)
  {
  }

  lemma FirstFieldPerformed(c: Core)
    requires c.gen == HERE && c.token == "t"
    ensures Does([T0, T1], c, 0, E6, B.Accept(T2), E7) && Does([T0, T1, T2], c, 0, E7, B.Deliver("-"), E8)
  {
    TextRules();
    hide Follows, Lawful, OthersChange;
  }

  lemma TypedLate(c: Core)
    requires c.gen == HERE && c.token == "t"
    ensures Does([T0, T1, T2], c, 0, E8, B.Issue(B.Patch(EDIT), true), E9)
    ensures Does([T0, T1, T2], c, 0, E9, B.Dispatch, E10)
  {
  }

  lemma SecondFieldPerformed(c: Core)
    requires c.gen == HERE && c.token == "t"
    ensures Does([T0, T1, T2], c, 0, E10, B.Accept(P3), E11) && Does([T0, T1, T2, P3], c, 0, E11, B.Deliver("-"), E12)
  {
    PortRules();
    hide Follows, Lawful, OthersChange;
  }

  lemma LateTextPerformed(c: Core)
    requires c.gen == HERE && c.token == "t"
    ensures Does([T0, T1, T2, P3], c, 0, E12, B.Dispatch, E13) && Does([T0, T1, T2, P3], c, 0, E13, B.Accept(P4), E14)
  {
    PortRules();
    hide Follows, Lawful, OthersChange;
  }

  lemma TheyWriteAgain()
    ensures Goes(Here([T0], E5), Server(T1), Here([T0, T1], E5))
  {
    PortRules();
    hide Follows, Lawful, OthersChange, D.Start, N.Start;
  }

  lemma FirstFieldSteps()
    ensures Goes(Here([T0], B4), Sequencer(B.Issue(B.Patch(PORT), true)), Here([T0], E5))
    ensures Goes(Here([T0, T1], E5), Sequencer(B.Dispatch), Here([T0, T1], E6))
  {
    TwoFields(D.Start([T0], true).core) by { HereIs(); }
    hide *;
    Plays([T0], B4, B.Issue(B.Patch(PORT), true), E5, [T0]);
    Plays([T0, T1], E5, B.Dispatch, E6, [T0, T1]);
  }

  lemma FirstFieldAcknowledged()
    ensures Goes(Here([T0, T1], E6), Sequencer(B.Accept(T2)), Here([T0, T1, T2], E7))
    ensures Goes(Here([T0, T1, T2], E7), Sequencer(B.Deliver("-")), Here([T0, T1, T2], E8))
  {
    FirstFieldPerformed(D.Start([T0], true).core) by { HereIs(); }
    hide *;
    assert [T0, T1] + [T2] == [T0, T1, T2];
    Plays([T0, T1], E6, B.Accept(T2), E7, [T0, T1, T2]);
    Plays([T0, T1, T2], E7, B.Deliver("-"), E8, [T0, T1, T2]);
  }

  lemma TypedLateSteps()
    ensures Goes(Here([T0, T1, T2], E8), Sequencer(B.Issue(B.Patch(EDIT), true)), Here([T0, T1, T2], E9))
    ensures Goes(Here([T0, T1, T2], E9), Sequencer(B.Dispatch), Here([T0, T1, T2], E10))
  {
    TypedLate(D.Start([T0], true).core) by { HereIs(); }
    hide *;
    Plays([T0, T1, T2], E8, B.Issue(B.Patch(EDIT), true), E9, [T0, T1, T2]);
    Plays([T0, T1, T2], E9, B.Dispatch, E10, [T0, T1, T2]);
  }

  lemma SecondFieldAcknowledged()
    ensures Goes(Here([T0, T1, T2], E10), Sequencer(B.Accept(P3)), Here([T0, T1, T2, P3], E11))
    ensures Goes(Here([T0, T1, T2, P3], E11), Sequencer(B.Deliver("-")), Here([T0, T1, T2, P3], E12))
  {
    SecondFieldPerformed(D.Start([T0], true).core) by { HereIs(); }
    hide *;
    assert [T0, T1, T2] + [P3] == [T0, T1, T2, P3];
    Plays([T0, T1, T2], E10, B.Accept(P3), E11, [T0, T1, T2, P3]);
    Plays([T0, T1, T2, P3], E11, B.Deliver("-"), E12, [T0, T1, T2, P3]);
  }

  lemma LateTextSent()
    ensures Goes(Here([T0, T1, T2, P3], E12), Sequencer(B.Dispatch), Here([T0, T1, T2, P3], E13))
  {
    LateTextPerformed(D.Start([T0], true).core) by { HereIs(); }
    hide *;
    Plays([T0, T1, T2, P3], E12, B.Dispatch, E13, [T0, T1, T2, P3]);
  }

  lemma LateTextAccepted()
    ensures Goes(Here([T0, T1, T2, P3], E13), Sequencer(B.Accept(P4)), Here([T0, T1, T2, P3, P4], E14))
  {
    LateTextPerformed(D.Start([T0], true).core) by { HereIs(); }
    hide *;
    assert [T0, T1, T2, P3] + [P4] == [T0, T1, T2, P3, P4];
    Plays([T0, T1, T2, P3], E13, B.Accept(P4), E14, [T0, T1, T2, P3, P4]);
  }

  /** "a" is loaded, and a first field patch is typed. */
  lemma OnePatch() returns (ws: seq<World>, es: seq<Event>)
    ensures Segment(ws, es) && |es| == 4 && ws[0] == Here([T0], B0) && ws[4] == Here([T0], B4)
  {
    hide *;
    FetchSteps();
    TypingSteps();
    ws := [Here([T0], B0), Here([T0], B1), Here([T0], B2), Here([T0], B3), Here([T0], B4)];
    es := [Sequencer(B.StartFetch), Sequencer(B.AnswerFetch), Sequencer(B.DeliverFetch), Sequencer(B.Issue(B.Patch(FIELD), true))];
    FewSteps(ws, es);
  }

  /** A second one is typed, somebody appends to the text, and the first is acknowledged: the text shown stays. */
  lemma Overtaken() returns (ws: seq<World>, es: seq<Event>)
    ensures Segment(ws, es) && |es| == 5 && ws[0] == Here([T0], B4) && ws[5] == Here([T0, T1, T2], E8)
  {
    hide *;
    TheyWriteAgain();
    FirstFieldSteps();
    FirstFieldAcknowledged();
    ws := [Here([T0], B4), Here([T0], E5), Here([T0, T1], E5), Here([T0, T1], E6), Here([T0, T1, T2], E7), Here([T0, T1, T2], E8)];
    es := [Sequencer(B.Issue(B.Patch(PORT), true)), Server(T1), Sequencer(B.Dispatch), Sequencer(B.Accept(T2)),
           Sequencer(B.Deliver("-"))];
    FewSteps(ws, es);
  }

  /** The text patch is typed over the old text; the second field patch is acknowledged. */
  lemma TypedBehind() returns (ws: seq<World>, es: seq<Event>)
    ensures Segment(ws, es) && |es| == 4 && ws[0] == Here([T0, T1, T2], E8) && ws[4] == Here([T0, T1, T2, P3], E12)
    ensures es[0] == Sequencer(B.Issue(B.Patch(EDIT), true))
  {
    hide *;
    TypedLateSteps();
    SecondFieldAcknowledged();
    ws := [Here([T0, T1, T2], E8), Here([T0, T1, T2], E9), Here([T0, T1, T2], E10), Here([T0, T1, T2, P3], E11),
           Here([T0, T1, T2, P3], E12)];
    es := [Sequencer(B.Issue(B.Patch(EDIT), true)), Sequencer(B.Dispatch), Sequencer(B.Accept(P3)), Sequencer(B.Deliver("-"))];
    FewSteps(ws, es);
  }

  lemma PatchedBehind() returns (ws: seq<World>, es: seq<Event>)
    ensures Segment(ws, es) && |es| == 2 && ws[0] == Here([T0, T1, T2, P3], E12) && ws[2] == Here([T0, T1, T2, P3, P4], E14)
  {
    hide *;
    LateTextSent();
    LateTextAccepted();
    ws := [Here([T0, T1, T2, P3], E12), Here([T0, T1, T2, P3], E13), Here([T0, T1, T2, P3, P4], E14)];
    es := [Sequencer(B.Dispatch), Sequencer(B.Accept(P4))];
    FewSteps(ws, es);
  }

  /** World w carries the revision of version 2, and shows the text of version 0. */
  predicate BehindItsRevision(w: World) {
    && |w.h| == 3 && w.drafts.shown == 0 && w.bench.Seen() == 2 && |w.bench.issued| == 2 && w.bench.state.workspace.Some?
    && "text" in w.bench.state.workspace.value.draft && w.bench.state.workspace.value.draft["text"] == Corpus(w.h[0]) == "a"
  }

  /** Version 4 is the patch: since the revision shown at its typing nothing foreign came in, and yet it erases. */
  predicate ErasedUnnoticed(w: World) {
    && |w.h| == 5 && WriteId(Queue.Bench, 2) in w.h[4].accepted && WriteId(Queue.Bench, 2) !in w.h[3].accepted
    && B.OnlyUs(w.h, 2, 3) && !B.OnlyUs(w.h, 0, 3) && Corpus(w.h[3]) == "a\ntheirs" && Corpus(w.h[4]) == "ab"
  }

  lemma BehindHere()
    ensures BehindItsRevision(Here([T0, T1, T2], E8))
  {
    HereIs();
    hide D.Start, Initial;
  }

  lemma Logs()
    ensures var h := [T0, T1, T2, P3, P4]; B.OnlyUs(h, 2, 3) && !B.OnlyUs(h, 0, 3)
  {
    assert P3.textLog[0] == Them && T0.textLog == [] && T2.textLog == P3.textLog;
  }

  lemma UnnoticedHere()
    ensures ErasedUnnoticed(Here([T0, T1, T2, P3, P4], E14))
  {
    Logs();
    hide D.Start, N.Start, B.OnlyUs;
  }

  /** THE REVISION SHOWN IS NOT THE TEXT SHOWN. Two field patches are queued over "a"; somebody appends to the text;
      the first is acknowledged, and the draft is kept; now the text patch is typed. Between the revision it is typed
      at and its performance nobody else changes the text, and still it erases what they had written. */
  lemma SkippedUpdate() returns (ws: seq<World>, es: seq<Event>)
    ensures Run(ws, es) && |es| == 15 && es[9] == Sequencer(B.Issue(B.Patch(EDIT), true)) && B.Patch(EDIT).Checked()
    ensures BehindItsRevision(ws[9]) && ErasedUnnoticed(ws[15])
  {
    HereIs();
    BehindHere();
    UnnoticedHere();
    hide Initial, Enabled, Step, Here, BehindItsRevision, ErasedUnnoticed;
    ws, es := OnePatch();
    var vs, fs := Overtaken();
    A.SegmentConcat(ws, es, vs, fs);
    ws, es := ws + vs[1..], es + fs;
    vs, fs := TypedBehind();
    A.SegmentConcat(ws, es, vs, fs);
    ws, es := ws + vs[1..], es + fs;
    vs, fs := PatchedBehind();
    A.SegmentConcat(ws, es, vs, fs);
    ws, es := ws + vs[1..], es + fs;
  }

  // ---------------------------------------------------------------- writes without a project

  /** An empty workspace in one project; our append; a restarted server with another project, whose text happens to
      have the same revision; our patch of that text. */
  const U0 := Text(HERE, 1, map[], 1, 1, [], {})
  const U1 := Text(HERE, 2, map["text" := "x"], 2, 2, [Us(0)], {WriteId(Queue.Bench, 0)})
  const U2 := Text(THERE, 1, map["text" := "z"], 1, 2, [Them], {WriteId(Queue.Bench, 0)})
  const U3 := Text(THERE, 2, map["text" := "z"] + EDIT, 2, 3, [Them, Us(1)], {WriteId(Queue.Bench, 0), WriteId(Queue.Bench, 1)})

  const X0 := B.BenchWrite(NO_GENERATION, "", B.Append("x"))
  const X1 := B.BenchWrite(NO_GENERATION, "", B.Patch(EDIT))

  function Bare(ws: Option<B.Workspace>, epoch: nat, queue: seq<B.BenchWrite>, posted: bool, reply: Reply,
                issued: seq<B.BenchWrite>, sent: map<nat, int>, seenAt: int): B.Net
  {
    B.Net(B.BenchState(ws, "", epoch, |queue|, queue, posted, false, None), reply, None, issued,
          seq(|issued|, _ => -1), sent, {}, seenAt)
  }

  const READ := Some(B.Workspace(map["text" := "x"], 2, 2))
  const OVER := Some(B.Workspace(map["text" := "x"] + EDIT, 2, 2))

  const C0 := Bare(None, 0, [], false, NoReply, [], map[], -1)
  const C1 := Bare(None, 1, [X0], false, NoReply, [X0], map[], -1)
  const C2 := Bare(None, 1, [X0], true, NoReply, [X0], map[0 := -1], -1)
  const C3 := Bare(None, 1, [X0], true, Replied(true, 1), [X0], map[0 := -1], -1)
  const C4 := Bare(READ, 1, [], false, NoReply, [X0], map[0 := -1], 1)
  const C5 := Bare(OVER, 2, [X1], false, NoReply, [X0, X1], map[0 := -1], 1)
  const C6 := Bare(OVER, 2, [X1], true, NoReply, [X0, X1], map[0 := -1, 1 := 1], 1)
  const C7 := Bare(OVER, 2, [X1], true, Replied(true, 3), [X0, X1], map[0 := -1, 1 := 1], 1)

  function Blank(h: seq<Version>, bench: B.Net): World { Page([U0], false, h, bench) }

  lemma BlankRules()
    ensures Lawful([U0]) && Follows([U0], U1) && Follows([U0, U1], U2) && OthersChange([U0, U1], U2) && Follows([U0, U1, U2], U3)
  {
    assert [U0, U1][1] == U1 && [U0, U1][0] == U0 && [U0, U1, U2][2] == U2;
  }

  lemma BlankIs()
    ensures var net := D.Start([U0], false); net.core.gen == NO_GENERATION && net.core.token == "" && net.core.seqNo == 0 && net.shown == -1
    ensures Initial(Blank([U0], C0))
  {
    BlankRules();
    assert Blank([U0], C0) == Start([U0], false);
    hide Follows, Lawful, OthersChange;
  }

  lemma PlaysBlank(h: seq<Version>, b: B.Net, e: B.Event, b': B.Net, h': seq<Version>)
    requires |h| > 0 && Does(h, D.Start([U0], false).core, -1, b, e, b') && h' == h + B.Appended(e)
    ensures Goes(Blank(h, b), Sequencer(e), Blank(h', b'))
  {
    BlankIs();
    hide D.Start, N.Start, B.Step, B.Enabled, Initial, B.Appended;
  }

  lemma AppendDone(c: Core)
    requires c.gen == NO_GENERATION && c.token == ""
    ensures Does([U0], c, -1, C0, B.Issue(B.Append("x"), false), C1) && Does([U0], c, -1, C1, B.Dispatch, C2)
    ensures Does([U0], c, -1, C2, B.Accept(U1), C3) && Does([U0, U1], c, -1, C3, B.Deliver("-"), C4)
  {
    BlankRules();
    hide Follows, Lawful, OthersChange;
  }

  lemma PatchDone(c: Core)
    requires c.gen == NO_GENERATION && c.token == ""
    ensures Does([U0, U1], c, -1, C4, B.Issue(B.Patch(EDIT), true), C5)
    ensures Does([U0, U1, U2], c, -1, C5, B.Dispatch, C6) && Does([U0, U1, U2], c, -1, C6, B.Accept(U3), C7)
  {
    BlankRules();
    hide Follows, Lawful, OthersChange;
  }

  lemma Restarts()
    ensures Goes(Blank([U0, U1], C5), Server(U2), Blank([U0, U1, U2], C5))
  {
    BlankRules();
    hide Follows, Lawful, OthersChange, D.Start, N.Start;
  }

  lemma Appended() returns (ws: seq<World>, es: seq<Event>)
    ensures Segment(ws, es) && |es| == 4 && ws[0] == Blank([U0], C0) && ws[4] == Blank([U0, U1], C4)
  {
    BlankIs();
    AppendDone(D.Start([U0], false).core);
    hide *;
    assert [U0] + [U1] == [U0, U1];
    PlaysBlank([U0], C0, B.Issue(B.Append("x"), false), C1, [U0]);
    PlaysBlank([U0], C1, B.Dispatch, C2, [U0]);
    PlaysBlank([U0], C2, B.Accept(U1), C3, [U0, U1]);
    PlaysBlank([U0, U1], C3, B.Deliver("-"), C4, [U0, U1]);
    ws := [Blank([U0], C0), Blank([U0], C1), Blank([U0], C2), Blank([U0, U1], C3), Blank([U0, U1], C4)];
    es := [Sequencer(B.Issue(B.Append("x"), false)), Sequencer(B.Dispatch), Sequencer(B.Accept(U1)), Sequencer(B.Deliver("-"))];
    FewSteps(ws, es);
  }

  lemma Patched() returns (ws: seq<World>, es: seq<Event>)
    ensures Segment(ws, es) && |es| == 4 && ws[0] == Blank([U0, U1], C4) && ws[4] == Blank([U0, U1, U2, U3], C7)
    ensures es[0] == Sequencer(B.Issue(B.Patch(EDIT), true))
  {
    BlankIs();
    PatchDone(D.Start([U0], false).core);
    hide *;
    assert [U0, U1, U2] + [U3] == [U0, U1, U2, U3];
    Restarts();
    PlaysBlank([U0, U1], C4, B.Issue(B.Patch(EDIT), true), C5, [U0, U1]);
    PlaysBlank([U0, U1, U2], C5, B.Dispatch, C6, [U0, U1, U2]);
    PlaysBlank([U0, U1, U2], C6, B.Accept(U3), C7, [U0, U1, U2, U3]);
    ws := [Blank([U0, U1], C4), Blank([U0, U1], C5), Blank([U0, U1, U2], C5), Blank([U0, U1, U2], C6), Blank([U0, U1, U2, U3], C7)];
    es := [Sequencer(B.Issue(B.Patch(EDIT), true)), Server(U2), Sequencer(B.Dispatch), Sequencer(B.Accept(U3))];
    FewSteps(ws, es);
  }

  /** Both writes of this client have been performed, in two projects, while the page shows none. */
  predicate Homeless(w: World) {
    && |w.h| == 4 && w.drafts.shown == -1
    && WriteId(Queue.Bench, 0) in w.h[1].accepted && WriteId(Queue.Bench, 0) !in w.h[0].accepted
    && WriteId(Queue.Bench, 1) in w.h[3].accepted && WriteId(Queue.Bench, 1) !in w.h[2].accepted
    && w.drafts.core.gen !in {w.h[1].gen, w.h[3].gen} && w.bench.Seen() == 1 && w.h[1].gen != w.h[3].gen
  }

  lemma HomelessHere()
    ensures Homeless(Blank([U0, U1, U2, U3], C7))
  {
    BlankIs();
    hide D.Start, Initial;
  }

  /** WITHOUT A SNAPSHOT EVEN A TEXT PATCH CAN LAND IN A PROJECT ITS AUTHOR NEVER SAW. An append is performed without
      a project stamp, and its answer gives the page a workspace; the server restarts with another project, whose
      text has the same revision; the patch typed over that workspace is performed there. */
  lemma UnstampedPatch() returns (ws: seq<World>, es: seq<Event>)
    ensures Run(ws, es) && |es| == 8 && es[4] == Sequencer(B.Issue(B.Patch(EDIT), true)) && B.Patch(EDIT).Checked()
    ensures Homeless(ws[8])
  {
    BlankIs();
    HomelessHere();
    hide Initial, Enabled, Step, Blank, Homeless;
    ws, es := Appended();
    var vs, fs := Patched();
    A.SegmentConcat(ws, es, vs, fs);
    ws, es := ws + vs[1..], es + fs;
  }

  // ---------------------------------------------------------------- drafts

  const TYPED: Slice := map["host" := "typed"]
  const V0 := Version("i", 1, HERE, None, None, 1, map[], 1, map[], 1, [], {})
  const V1 := V0.(seqNo := 2, repeater := Some(REPEATER_DEFAULT + TYPED), accepted := {WriteId(Queue.Repeater, 0)})

  lemma DraftRules()
    ensures Lawful([V0]) && Follows([V0], V1)
  {
  }

  const LOST := Write(NO_GENERATION, "", TYPED)

  /** The page has had no snapshot, and its edit is on the way. */
  predicate OnItsWay(w: World) {
    && w.h == [V0] && w.drafts.shown == -1 && w.drafts.repeater == D.Wire(NoReply, [LOST], [-1], {})
    && w.drafts.core.repeater.queue == [LOST] && w.drafts.core.repeater.posted
  }

  lemma SentUnstamped() returns (ws: seq<World>, es: seq<Event>)
    ensures Run(ws, es) && |es| == 2 && es[0] == Draft(D.Issue(Repeater, TYPED, true))
    ensures ws[0].drafts.shown == -1 && ws[0].drafts.core.gen == NO_GENERATION && OnItsWay(ws[2])
  {
    DraftRules();
    var w := Start([V0], false);
    assert w == Start(w.h, false) && Initial(w);
    ws, es := [w, Step(w, Draft(D.Issue(Repeater, TYPED, true)))], [Draft(D.Issue(Repeater, TYPED, true))];
    assert ws[1].drafts.core.repeater.queue == [LOST] && !ws[1].drafts.core.repeater.posted;
    ws, es := ws + [Step(ws[1], Draft(D.Dispatch(Repeater)))], es + [Draft(D.Dispatch(Repeater))];
    hide Follows, Lawful, OthersChange, B.Start, N.Start;
  }

  lemma UnstampedPerformed(w: World)
    requires OnItsWay(w)
    ensures Enabled(w, Draft(D.Accept(Repeater, V1))) && Step(w, Draft(D.Accept(Repeater, V1))).h == [V0, V1]
  {
    DraftRules();
    hide Follows, Lawful;
  }

  /** A write of the Repeater is performed in a project the page, without a snapshot, has never shown. */
  lemma UnstampedEdit() returns (ws: seq<World>, es: seq<Event>)
    ensures Run(ws, es) && |es| == 3 && es[0] == Draft(D.Issue(Repeater, TYPED, true)) && ws[0].drafts.shown == -1
    ensures |ws[3].h| == 2 && WriteId(Queue.Repeater, 0) in ws[3].h[1].accepted && WriteId(Queue.Repeater, 0) !in ws[3].h[0].accepted
    ensures ws[3].h[1].gen != ws[0].drafts.core.gen
  {
    hide Initial, Enabled, Step, OnItsWay;
    ws, es := SentUnstamped();
    UnstampedPerformed(ws[2]);
    A.SegmentSnoc(ws, es, Draft(D.Accept(Repeater, V1)));
    ws, es := ws + [Step(ws[2], Draft(D.Accept(Repeater, V1)))], es + [Draft(D.Accept(Repeater, V1))];
  }

  const STAMPED := Write(HERE, "t", TYPED)

  function Drafts(poll: D.Poll, draft: Slice, pending: nat, queue: seq<Write>, posted: bool, reply: Reply): D.Net {
    D.Net(Core.Core(HERE, "t", "i", 0, true, Lane.Lane(draft, 1, pending, queue, posted), Lane.Lane(INTRUDER_DEFAULT, 0, 0, [], false)),
          poll, D.Wire(reply, [STAMPED], [0], {}), D.Wire(NoReply, [], [], {}), 0)
  }

  const ASKED := D.Ticket(0, "i", 1, 0)
  const MINE := REPEATER_DEFAULT + TYPED
  const D1 := Drafts(D.Idle, MINE, 1, [STAMPED], false, NoReply)
  const D2 := Drafts(D.Asked(ASKED), MINE, 1, [STAMPED], false, NoReply)
  const D3 := Drafts(D.Full(ASKED, 0), MINE, 1, [STAMPED], false, NoReply)
  const D4 := Drafts(D.Full(ASKED, 0), MINE, 1, [STAMPED], true, NoReply)
  const D5 := Drafts(D.Full(ASKED, 0), MINE, 1, [STAMPED], true, Replied(true, 1))
  const D6 := Drafts(D.Full(ASKED, 0), MINE, 0, [], false, NoReply)

  predicate DoesDraft(h: seq<Version>, net: D.Net, e: D.Event, net': D.Net)
    requires |h| > 0
  {
    D.Enabled(h, net, e) && D.Step(h, net, e) == net'
  }

  function Editor(h: seq<Version>, net: D.Net): World {
    World(h, net, N.Start(SnapshotOf(V0)), B.Start(SnapshotOf(V0)))
  }

  lemma PlaysDraft(h: seq<Version>, net: D.Net, e: D.Event, net': D.Net, h': seq<Version>)
    requires |h| > 0 && DoesDraft(h, net, e, net') && h' == h + D.Appended(e) && !e.DeliverPoll?
    ensures Goes(Editor(h, net), Draft(e), Editor(h', net'))
  {
    hide D.Step, D.Enabled, N.Start, B.Start, D.Appended;
  }

  lemma EditorStarts()
    ensures Initial(Editor([V0], D.Start([V0], true)))
    ensures DoesDraft([V0], D.Start([V0], true), D.Issue(Repeater, TYPED, true), D1)
  {
    DraftRules();
    assert Editor([V0], D.Start([V0], true)) == Start([V0], true);
    hide Follows, Lawful, OthersChange;
  }

  lemma PollAnswered()
    ensures DoesDraft([V0], D1, D.SendPoll, D2) && DoesDraft([V0], D2, D.AnswerPoll, D3)
  {
  }

  lemma EditPerformed()
    ensures DoesDraft([V0], D3, D.Dispatch(Repeater), D4) && DoesDraft([V0], D4, D.Accept(Repeater, V1), D5)
    ensures DoesDraft([V0, V1], D5, D.Settle(Repeater), D6)
  {
    DraftRules();
    hide Follows;
  }

  /** The step delivers a snapshot older than the acknowledgement of the edit shown, and takes the edit back. */
  predicate TakesBack(w: World, e: Event) {
    && Enabled(w, e) && e == Draft(D.DeliverPoll) && w.drafts.poll == D.Full(ASKED, 0) && |w.h| == 2
    && WriteId(Queue.Repeater, 0) in w.h[1].accepted && w.drafts.core.repeater.pending == 0
    && w.drafts.core.repeater.draft == Shown(w.h[1], Repeater) != Shown(w.h[0], Repeater)
    && Step(w, e).drafts.core.repeater.draft == Shown(w.h[0], Repeater)
  }

  lemma TakenBack()
    ensures TakesBack(Editor([V0, V1], D6), Draft(D.DeliverPoll))
  {
    assert MINE["host"] != REPEATER_DEFAULT["host"];
    hide N.Refreshed, B.Refreshed, N.Start, B.Start, REPEATER_DEFAULT;
  }

  lemma Edited() returns (ws: seq<World>, es: seq<Event>)
    ensures Segment(ws, es) && |es| == 3 && ws[0] == Editor([V0], D.Start([V0], true)) && ws[3] == Editor([V0], D3)
  {
    EditorStarts();
    PollAnswered();
    assert [V0] + D.Appended(D.Issue(Repeater, TYPED, true)) == [V0];
    assert [V0] + D.Appended(D.SendPoll) == [V0] && [V0] + D.Appended(D.AnswerPoll) == [V0];
    hide *;
    PlaysDraft([V0], D.Start([V0], true), D.Issue(Repeater, TYPED, true), D1, [V0]);
    PlaysDraft([V0], D1, D.SendPoll, D2, [V0]);
    PlaysDraft([V0], D2, D.AnswerPoll, D3, [V0]);
    ws := [Editor([V0], D.Start([V0], true)), Editor([V0], D1), Editor([V0], D2), Editor([V0], D3)];
    es := [Draft(D.Issue(Repeater, TYPED, true)), Draft(D.SendPoll), Draft(D.AnswerPoll)];
    FewSteps(ws, es);
  }

  lemma Settled() returns (ws: seq<World>, es: seq<Event>)
    ensures Segment(ws, es) && |es| == 3 && ws[0] == Editor([V0], D3) && ws[3] == Editor([V0, V1], D6)
    ensures es[2] == Draft(D.Settle(Repeater)) && ws[2].drafts.repeater.reply == Replied(true, 1)
  {
    EditPerformed();
    assert Editor([V0, V1], D5).drafts.repeater.reply == Replied(true, 1);
    hide *;
    assert [V0] + [V1] == [V0, V1];
    PlaysDraft([V0], D3, D.Dispatch(Repeater), D4, [V0]);
    PlaysDraft([V0], D4, D.Accept(Repeater, V1), D5, [V0, V1]);
    PlaysDraft([V0, V1], D5, D.Settle(Repeater), D6, [V0, V1]);
    ws := [Editor([V0], D3), Editor([V0], D4), Editor([V0, V1], D5), Editor([V0, V1], D6)];
    es := [Draft(D.Dispatch(Repeater)), Draft(D.Accept(Repeater, V1)), Draft(D.Settle(Repeater))];
    FewSteps(ws, es);
  }

  /** AN ACKNOWLEDGED EDIT CAN BE TAKEN BACK. A poll is sent while the edit is pending and answered before the server
      performs it; it is delivered after the acknowledgement, with nothing pending, and replaces the draft. */
  lemma OvertakenAcknowledgement() returns (ws: seq<World>, es: seq<Event>)
    ensures Run(ws, es) && |es| == 7 && es[5] == Draft(D.Settle(Repeater)) && ws[5].drafts.repeater.reply == Replied(true, 1)
    ensures TakesBack(ws[6], es[6])
  {
    EditorStarts();
    TakenBack();
    var w, e := Editor([V0, V1], D6), Draft(D.DeliverPoll);
    assert Enabled(w, e);
    hide Initial, Enabled, Step, Editor, TakesBack;
    ws, es := Edited();
    var vs, fs := Settled();
    A.SegmentConcat(ws, es, vs, fs);
    assert (ws + vs[1..])[5] == vs[2] && (ws + vs[1..])[6] == vs[3];
    ws, es := ws + vs[1..], es + fs;
    A.SegmentSnoc(ws, es, e);
    ws, es := ws + [Step(w, e)], es + [e];
  }
}

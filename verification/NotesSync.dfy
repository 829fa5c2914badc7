/**
 * Project notes: annotateHistory, refreshAnnotations and acceptAnnotations against the server.
 * Fetches and write answers may arrive in any order; several fetches may be under way at once.
 */
module NotesSync {
  import opened Basics
  import opened ServerHistory
  import opened ClientState

  datatype NoteWrite = NoteWrite(gen: Generation, stamp: string)

  /** The body of an answer about notes. */
  datatype NoteData = NoteData(token: string, notes: map<nat, string>, rev: nat)

  /** The NL fields about notes; `bootRev` is bootInfo.annotationsRevision, 0 when absent; `retryAt` is a time. */
  datatype NoteState = NoteState(
    bootRev: nat, notes: map<nat, string>, loaded: Option<nat>, error: bool, epoch: nat,
    pendingKey: Option<(Generation, nat)>, retryAt: int, queue: seq<NoteWrite>, posted: bool)

  function DataOf(v: Version): NoteData { NoteData(v.gen.token, v.notes, v.notesRev) }

  // ---------------------------------------------------------------- the handlers

  /** acceptAnnotations; a revision of 0 stands for the missing argument. */
  predicate Accepts(c: Core, s: NoteState, data: NoteData, gen: Generation, rev: nat) {
    gen == c.gen && data.token == c.token && (rev == 0 || (rev == s.bootRev && data.rev == rev))
  }

  function AcceptAnnotations(c: Core, s: NoteState, data: NoteData, gen: Generation, rev: nat): NoteState {
    if Accepts(c, s, data, gen, rev) then s.(notes := data.notes, loaded := Some(data.rev), error := false) else s
  }

  const RETRY_DELAY := 3000

  /** refreshAnnotations starts a fetch at time `now` unless one of its guards stops it. */
  predicate MayFetch(c: Core, s: NoteState, now: int) {
    && c.connected && s.bootRev != 0 && s.loaded != Some(s.bootRev) && s.pendingKey != Some((c.gen, s.bootRev))
    && now >= s.retryAt
  }

  function ClearKey(s: NoteState, gen: Generation, rev: nat): NoteState {
    if s.pendingKey == Some((gen, rev)) then s.(pendingKey := None) else s
  }

  /** The rest of refreshAnnotations, once the answer is there (None: the fetch failed, at time `now`). */
  function FinishFetch(c: Core, s: NoteState, gen: Generation, rev: nat, epoch: nat, data: Option<NoteData>, now: int): NoteState {
    var s' :=
      match data
      case Some(d) => if epoch == s.epoch then AcceptAnnotations(c, s, d, gen, rev) else s
      case None => if gen == c.gen && rev == s.bootRev && epoch == s.epoch then s.(error := true, retryAt := now + RETRY_DELAY) else s;
    ClearKey(s', gen, rev)
  }

  /** applySnapshot, as far as notes are concerned; `c` is the state before it. */
  function NotesSnapshot(c: Core, s: NoteState, snap: Snapshot): NoteState {
    if snap.gen != c.gen
    then s.(notes := map[], loaded := None, error := false, retryAt := 0, bootRev := snap.notesRev)
    else s.(bootRev := snap.notesRev)
  }

  /** The head of annotateHistory's chain settles (None: refused, failed, or never posted). */
  function SettleNote(c: Core, s: NoteState, data: Option<NoteData>): NoteState
    requires s.queue != []
  {
    var w := s.queue[0];
    var s' := s.(queue := s.queue[1..], posted := false);
    match data
    case Some(d) =>
      if w.gen == c.gen
      then AcceptAnnotations(c, s'.(epoch := s.epoch + 1, bootRev := d.rev), d, w.gen, 0)
      else s'
    case None => s'
  }

  // ---------------------------------------------------------------- the network

  datatype Fetch = Fetch(gen: Generation, rev: nat, epoch: nat, answer: Option<nat>)

  datatype Net = Net(
    state: NoteState, reply: Option<nat>, fetches: seq<Fetch>,
    issued: seq<NoteWrite>,  // every note write ever issued
    abandoned: set<nat>,     // posted, failed at the client, perhaps still on the way
    loadedAt: int,   // version the loaded notes were read from
    ackedAt: int)    // version of the latest acknowledged note of this generation
  {
    /** Position in `issued` of the write at the head of the queue. */
    function Head(): nat {
      if |state.queue| <= |issued| then |issued| - |state.queue| else 0
    }
  }

  datatype Event =
    | Annotate | Dispatch | AcceptNote(v: Version) | DeliverNote | FailNote | AcceptLate(n: nat, v: Version)
    | StartFetch(now: int) | AnswerFetch(k: nat) | DeliverFetch(k: nat) | FailFetch(k: nat, now: int)

  /** The server's rule for notes: the stamp must be there and current, and the notes' revision grows. */
  predicate Performs(h: seq<Version>, v: Version, w: NoteWrite, id: WriteId)
    requires |h| > 0
  {
    var u := h[|h| - 1];
    && w.stamp == u.gen.token
    && Follows(h, v) && v.gen == u.gen && v.textLog == u.textLog && u.notesRev < v.notesRev
    && id !in u.accepted && v.accepted == u.accepted + {id}
  }

  predicate Enabled(h: seq<Version>, c: Core, net: Net, e: Event)
    requires |h| > 0
  {
    var s := net.state;
    match e
    case Annotate => true
    case Dispatch => s.queue != [] && !s.posted
    case AcceptNote(v) =>
      s.queue != [] && s.posted && net.reply.None? && Performs(h, v, s.queue[0], WriteId(Notes, net.Head()))
    case DeliverNote => s.queue != [] && net.reply.Some? && net.reply.value < |h|
    case FailNote => s.queue != [] && s.posted
    case AcceptLate(n, v) => n in net.abandoned && n < |net.issued| && Performs(h, v, net.issued[n], WriteId(Notes, n))
    case StartFetch(now) => MayFetch(c, s, now)
    case AnswerFetch(k) => k < |net.fetches| && net.fetches[k].answer.None?
    case DeliverFetch(k) => k < |net.fetches| && net.fetches[k].answer.Some? && net.fetches[k].answer.value < |h|
    case FailFetch(k, _) => k < |net.fetches|
  }

  function Appended(e: Event): seq<Version> {
    if e.AcceptNote? || e.AcceptLate? then [e.v] else []
  }

  function Without(fs: seq<Fetch>, k: nat): seq<Fetch>
    requires k < |fs|
  {
    fs[..k] + fs[k + 1..]
  }

  /** The acknowledgement of `w`, answered from version `v`, replaces the loaded notes. */
  predicate Takes(c: Core, w: NoteWrite, v: Version) {
    w.gen == c.gen && v.gen.token == c.token
  }

  function Step(h: seq<Version>, c: Core, net: Net, e: Event): Net
    requires |h| > 0 && Enabled(h, c, net, e)
  {
    var s := net.state;
    match e
    case Annotate =>
      net.(state := s.(queue := s.queue + [NoteWrite(c.gen, c.token)]), issued := net.issued + [NoteWrite(c.gen, c.token)])
    case Dispatch =>
      if s.queue[0].gen == c.gen then net.(state := s.(posted := true), reply := None)
      else net.(state := SettleNote(c, s, None))
    case AcceptNote(v) => net.(reply := Some(|h|))
    case DeliverNote =>
      var i := net.reply.value;
      var s' := SettleNote(c, s, Some(DataOf(h[i])));
      net.(state := s', reply := None,
           loadedAt := if Takes(c, s.queue[0], h[i]) then i else net.loadedAt,
           ackedAt := if Takes(c, s.queue[0], h[i]) then i else net.ackedAt)
    case FailNote => net.(state := SettleNote(c, s, None), reply := None, abandoned := net.abandoned + {net.Head()})
    case AcceptLate(n, v) => net.(abandoned := net.abandoned - {n})
    case StartFetch(_) =>
      net.(state := s.(pendingKey := Some((c.gen, s.bootRev))),
           fetches := net.fetches + [Fetch(c.gen, s.bootRev, s.epoch, None)])
    case AnswerFetch(k) => net.(fetches := net.fetches[k := net.fetches[k].(answer := Some(|h| - 1))])
    case DeliverFetch(k) =>
      var f := net.fetches[k];
      var d := DataOf(h[f.answer.value]);
      net.(state := FinishFetch(c, s, f.gen, f.rev, f.epoch, Some(d), 0), fetches := Without(net.fetches, k),
           loadedAt := if f.epoch == s.epoch && Accepts(c, s, d, f.gen, f.rev) then f.answer.value else net.loadedAt)
    case FailFetch(k, now) =>
      var f := net.fetches[k];
      net.(state := FinishFetch(c, s, f.gen, f.rev, f.epoch, None, now), fetches := Without(net.fetches, k))
  }

  /** A snapshot is delivered. */
  function Refreshed(c: Core, net: Net, snap: Snapshot): Net {
    net.(state := NotesSnapshot(c, net.state, snap),
         ackedAt := if snap.gen != c.gen then -1 else net.ackedAt)
  }

  const IDLE := Net(NoteState(0, map[], None, false, 0, None, 0, [], false), None, [], [], {}, -1, -1)

  /** Loading the page. */
  function Start(snap: Snapshot): Net { Refreshed(Boot(EMPTY_SNAPSHOT), IDLE, snap) }

  // ---------------------------------------------------------------- invariant

  /** Version i belongs to the generation the client shows, last seen at version `shown`. */
  predicate Current(h: seq<Version>, shown: int, i: int) {
    0 <= i < |h| && 0 <= shown < |h| && h[i].gen.token == h[shown].gen.token
  }

  /** The loaded notes are the server's notes at the loaded revision, in this generation. */
  predicate Coherent(h: seq<Version>, shown: int, net: Net) {
    net.state.loaded.Some? ==>
      && Current(h, shown, net.loadedAt)
      && net.state.loaded.value == h[net.loadedAt].notesRev
      && net.state.notes == h[net.loadedAt].notes
  }

  predicate RevisionsOk(h: seq<Version>, shown: int, net: Net) {
    var s := net.state;
    && shown < |h|
    && (net.ackedAt >= 0 ==> Current(h, shown, net.ackedAt))
    && (0 <= shown < |h| ==> s.bootRev == h[shown].notesRev || (net.ackedAt >= 0 && s.bootRev == h[net.ackedAt].notesRev))
    && (s.loaded.Some? ==> s.loaded.value <= s.bootRev || (net.ackedAt >= 0 && s.loaded.value <= h[net.ackedAt].notesRev))
  }

  predicate WritesOk(h: seq<Version>, net: Net) {
    && |net.state.queue| <= |net.issued| && net.state.queue == net.issued[net.Head()..]
    && (net.state.queue == [] ==> !net.state.posted)
    && (net.reply.Some? ==>
          && net.state.posted && net.reply.value < |h|
          && net.state.queue[0].stamp == h[net.reply.value].gen.token)
    && (forall k | 0 <= k < |net.state.queue| :: net.state.queue[k].stamp == net.state.queue[k].gen.token)
  }

  /** A fetch started since the latest acknowledged note is answered from that note's version or later. */
  predicate FetchesOk(h: seq<Version>, net: Net) {
    net.ackedAt < |h| &&
    forall k | 0 <= k < |net.fetches| ::
      var f := net.fetches[k];
      && f.epoch <= net.state.epoch
      && f.rev != 0
      && (f.answer.Some? ==> f.answer.value < |h| && (f.epoch == net.state.epoch ==> net.ackedAt <= f.answer.value))
  }

  predicate Inv(h: seq<Version>, shown: int, net: Net) {
    Coherent(h, shown, net) && RevisionsOk(h, shown, net) && WritesOk(h, net) && FetchesOk(h, net)
  }

  lemma DeliverNoteOk(h: seq<Version>, c: Core, shown: int, net: Net)
    requires Lawful(h) && ClientOk(h, c, shown) && Inv(h, shown, net) && Enabled(h, c, net, DeliverNote)
    ensures Inv(h, shown, Step(h, c, net, DeliverNote))
  {
    if shown >= 0 {
      LawfulWellFormed(h, shown);
    }
    LawfulWellFormed(h, net.reply.value);
    hide Lawful, Follows;
  }

  lemma DeliverFetchOk(h: seq<Version>, c: Core, shown: int, net: Net, k: nat)
    requires Lawful(h) && ClientOk(h, c, shown) && Inv(h, shown, net) && Enabled(h, c, net, DeliverFetch(k))
    ensures Inv(h, shown, Step(h, c, net, DeliverFetch(k)))
  {
    DeliveredNotes(h, c, shown, net, k);
    DeliveredRest(h, c, shown, net, k);
    hide *;
    InvIs(h, shown, Step(h, c, net, DeliverFetch(k)));
  }

  lemma InvIs(h: seq<Version>, shown: int, net: Net)
    ensures Inv(h, shown, net) <==> Coherent(h, shown, net) && RevisionsOk(h, shown, net) && WritesOk(h, net) && FetchesOk(h, net)
  {
    hide Coherent, RevisionsOk, WritesOk, FetchesOk;
  }

  lemma DeliveredNotes(h: seq<Version>, c: Core, shown: int, net: Net, k: nat)
    requires Lawful(h) && ClientOk(h, c, shown) && Inv(h, shown, net) && Enabled(h, c, net, DeliverFetch(k))
    ensures var net' := Step(h, c, net, DeliverFetch(k)); Coherent(h, shown, net') && RevisionsOk(h, shown, net')
  {
    LawfulWellFormed(h, net.fetches[k].answer.value);
    hide Lawful, Follows, WritesOk, Without;
  }

  lemma DeliveredRest(h: seq<Version>, c: Core, shown: int, net: Net, k: nat)
    requires |h| > 0 && Inv(h, shown, net) && Enabled(h, c, net, DeliverFetch(k))
    ensures var net' := Step(h, c, net, DeliverFetch(k)); WritesOk(h, net') && FetchesOk(h, net')
  {
    hide Follows, Coherent, RevisionsOk, Accepts;
  }

  lemma GrowsOk(h: seq<Version>, v: Version, shown: int, net: Net)
    requires Inv(h, shown, net)
    ensures Inv(h + [v], shown, net)
  {
  }

  lemma AcceptNoteOk(h: seq<Version>, c: Core, shown: int, net: Net, v: Version)
    requires Inv(h, shown, net) && |h| > 0 && Enabled(h, c, net, AcceptNote(v))
    ensures Inv(h + [v], shown, Step(h, c, net, AcceptNote(v)))
  {
    hide Follows;
    GrowsOk(h, v, shown, net);
  }

  lemma ForgetOk(h: seq<Version>, shown: int, net: Net, n: nat)
    requires Inv(h, shown, net)
    ensures Inv(h, shown, net.(abandoned := net.abandoned - {n}))
  {
  }

  lemma LateStep(h: seq<Version>, c: Core, net: Net, e: Event)
    requires |h| > 0 && Enabled(h, c, net, e) && e.AcceptLate?
    ensures Step(h, c, net, e) == net.(abandoned := net.abandoned - {e.n})
  {
    hide Follows;
  }

  lemma FailFetchOk(h: seq<Version>, c: Core, shown: int, net: Net, k: nat, now: int)
    requires |h| > 0 && Inv(h, shown, net) && Enabled(h, c, net, FailFetch(k, now))
    ensures Inv(h, shown, Step(h, c, net, FailFetch(k, now)))
  {
    FailedNotes(h, c, shown, net, k, now);
    FailedFetches(h, c, net, k, now);
    hide *;
    InvIs(h, shown, net);
    InvIs(h, shown, Step(h, c, net, FailFetch(k, now)));
  }

  lemma FailedNotes(h: seq<Version>, c: Core, shown: int, net: Net, k: nat, now: int)
    requires |h| > 0 && Coherent(h, shown, net) && RevisionsOk(h, shown, net) && WritesOk(h, net)
    requires Enabled(h, c, net, FailFetch(k, now))
    ensures var net' := Step(h, c, net, FailFetch(k, now));
      Coherent(h, shown, net') && RevisionsOk(h, shown, net') && WritesOk(h, net')
  {
    hide Follows, Without;
  }

  lemma FailedFetches(h: seq<Version>, c: Core, net: Net, k: nat, now: int)
    requires |h| > 0 && FetchesOk(h, net) && Enabled(h, c, net, FailFetch(k, now))
    ensures FetchesOk(h, Step(h, c, net, FailFetch(k, now)))
  {
    var net' := Step(h, c, net, FailFetch(k, now));
    assert net'.state.epoch == net.state.epoch && net'.ackedAt == net.ackedAt && net'.fetches == Without(net.fetches, k);
    hide Step, Enabled;
    FetchesWithout(h, net, net', k);
  }

  lemma FetchesWithout(h: seq<Version>, net: Net, net': Net, k: nat)
    requires FetchesOk(h, net) && k < |net.fetches|
    requires net'.state.epoch == net.state.epoch && net'.ackedAt == net.ackedAt && net'.fetches == Without(net.fetches, k)
    ensures FetchesOk(h, net')
  {
    forall i | 0 <= i < |net'.fetches| ensures net'.fetches[i] == net.fetches[if i < k then i else i + 1] {
    }
  }

  lemma AnnotateOk(h: seq<Version>, c: Core, shown: int, net: Net)
    requires |h| > 0 && ClientOk(h, c, shown) && Inv(h, shown, net)
    ensures Inv(h, shown, Step(h, c, net, Annotate))
  {
    hide Follows, Current;
  }

  lemma SendOk(h: seq<Version>, c: Core, shown: int, net: Net)
    requires |h| > 0 && Inv(h, shown, net) && Enabled(h, c, net, Dispatch) && net.state.queue[0].gen == c.gen
    ensures Inv(h, shown, Step(h, c, net, Dispatch))
  {
    hide Follows, Current;
  }

  /** A note is dropped: it was not sent, or its answer is not coming. */
  lemma DropOk(h: seq<Version>, c: Core, shown: int, net: Net, e: Event)
    requires |h| > 0 && Inv(h, shown, net) && Enabled(h, c, net, e) && (e.FailNote? || (e.Dispatch? && net.state.queue[0].gen != c.gen))
    ensures Inv(h, shown, Step(h, c, net, e))
  {
    hide Follows, Current;
  }

  lemma FetchingOk(h: seq<Version>, c: Core, shown: int, net: Net, e: Event)
    requires |h| > 0 && Inv(h, shown, net) && Enabled(h, c, net, e) && (e.StartFetch? || e.AnswerFetch?)
    ensures Inv(h, shown, Step(h, c, net, e))
  {
    var net' := Step(h, c, net, e);
    assert WritesOk(h, net') by { hide Follows, Coherent, RevisionsOk, FetchesOk; }
    assert FetchesOk(h, net') by { hide Follows, Coherent, WritesOk, Current; }
    assert Coherent(h, shown, net') && RevisionsOk(h, shown, net') by { hide Follows, WritesOk, FetchesOk; }
    hide Enabled, Step, Coherent, RevisionsOk, WritesOk, FetchesOk;
  }

  lemma StepOk(h: seq<Version>, c: Core, shown: int, net: Net, e: Event)
    requires Lawful(h) && ClientOk(h, c, shown) && Inv(h, shown, net) && Enabled(h, c, net, e)
    ensures Inv(h + Appended(e), shown, Step(h, c, net, e))
  {
    assert h + [] == h;
    hide Lawful, Inv, Step;
    match e
    case AcceptNote(v) => AcceptNoteOk(h, c, shown, net, v);
    case AcceptLate(n, v) => GrowsOk(h, v, shown, net); ForgetOk(h + [v], shown, net, n); LateStep(h, c, net, e);
    case DeliverNote => DeliverNoteOk(h, c, shown, net);
    case DeliverFetch(k) => DeliverFetchOk(h, c, shown, net, k);
    case FailFetch(k, now) => FailFetchOk(h, c, shown, net, k, now);
    case StartFetch(_) => FetchingOk(h, c, shown, net, e);
    case AnswerFetch(_) => FetchingOk(h, c, shown, net, e);
    case Annotate => AnnotateOk(h, c, shown, net);
    case Dispatch => if net.state.queue[0].gen == c.gen { SendOk(h, c, shown, net); } else { DropOk(h, c, shown, net, e); }
    case FailNote => DropOk(h, c, shown, net, e);
  }

  lemma RefreshedOk(h: seq<Version>, c: Core, shown: int, net: Net, i: nat)
    requires Lawful(h) && ClientOk(h, c, shown) && Inv(h, shown, net) && shown <= i < |h|
    ensures Inv(h, i, Refreshed(c, net, SnapshotOf(h[i])))
  {
    if 0 <= shown && h[shown].gen == h[i].gen {
      NotesDetermined(h, shown, i);
    }
    hide Lawful, Follows;
  }

  lemma StartOk(h: seq<Version>, loaded: bool)
    requires |h| > 0
    ensures Inv(h, if loaded then |h| - 1 else -1, Start(if loaded then SnapshotOf(h[|h| - 1]) else EMPTY_SNAPSHOT))
  {
  }

  lemma AcceptFrame(h: seq<Version>, c: Core, net: Net, e: Event)
    requires |h| > 0 && Enabled(h, c, net, e) && (e.AcceptNote? || e.AcceptLate?)
    ensures Follows(h, e.v)
    ensures forall q, n: nat | q != Notes :: WriteId(q, n) in e.v.accepted ==> WriteId(q, n) in h[|h| - 1].accepted
  {
    hide Follows;
  }

  // ---------------------------------------------------------------- theorems

  predicate Lowered(before: NoteState, after: NoteState) {
    before.loaded.Some? && after.loaded.Some? && after.loaded.value < before.loaded.value
  }

  /** A fetched answer never takes the notes back, in whatever order answers arrive and
      whatever an older snapshot has done to bootInfo.annotationsRevision. */
  lemma FetchNeverLowers(h: seq<Version>, c: Core, shown: int, net: Net, k: nat)
    requires Lawful(h) && ClientOk(h, c, shown) && Inv(h, shown, net) && Enabled(h, c, net, DeliverFetch(k))
    ensures !Lowered(net.state, Step(h, c, net, DeliverFetch(k)).state)
  {
    var f := net.fetches[k];
    var i := f.answer.value;
    if f.epoch == net.state.epoch && 0 <= net.ackedAt && h[net.ackedAt].gen.token == h[i].gen.token {
      NotesDetermined(h, net.ackedAt, i);
    }
    hide Lawful;
  }

  /** Exactly when an acknowledgement takes the notes back, with no assumption on order. */
  lemma AckLowersExactly(h: seq<Version>, c: Core, shown: int, net: Net)
    requires Lawful(h) && ClientOk(h, c, shown) && Inv(h, shown, net) && Enabled(h, c, net, DeliverNote)
    ensures Lowered(net.state, Step(h, c, net, DeliverNote).state)
      <==> net.state.loaded.Some? && net.state.queue[0].gen == c.gen
           && net.reply.value < net.loadedAt && h[net.reply.value].notesRev != h[net.loadedAt].notesRev
  {
    var i := net.reply.value;
    if net.state.loaded.Some? && net.state.queue[0].gen == c.gen && shown >= 0 {
      LawfulWellFormed(h, shown);
      if i <= net.loadedAt && h[i].gen.token == h[net.loadedAt].gen.token {
        NotesDetermined(h, i, net.loadedAt);
      } else if h[i].gen.token == h[net.loadedAt].gen.token {
        NotesDetermined(h, net.loadedAt, i);
      }
    }
    hide Lawful;
  }
}

/**
 * The client's own state and event handlers (ui-v2/real-data.js) for the Repeater and Intruder
 * drafts, as pure functions. The class in NullockClient.dfy runs the same handlers in place.
 */
module ClientState {
  import opened Basics
  import opened ServerHistory

  /** Before the first usable snapshot every part of NL._generation is the empty string. */
  const NO_GENERATION := Generation("", "", "")

  const REPEATER_DEFAULT: Slice := map[
    "host" := "", "port" := "443", "tls" := "true", "request" := "", "response" := "",
    "statusLine" := "", "autoContentLength" := "true"]

  const INTRUDER_DEFAULT: Slice := map[
    "host" := "", "port" := "443", "tls" := "true", "template" := "", "payloads" := "[]",
    "results" := "[]", "running" := "false", "concurrency" := "10", "throttleMs" := "0",
    "attackType" := "0", "positions" := "0", "payloadSets" := "[]"]

  type LaneName = q: Queue | q.Repeater? || q.Intruder? witness Repeater

  /** A queued write: the generation it was typed in and the historyGeneration it will carry. */
  datatype Write = Write(gen: Generation, stamp: string, payload: Slice)

  /** A draft with its write epoch, its pending counter and the unsettled part of its promise chain. */
  datatype Lane = Lane(draft: Slice, epoch: nat, pending: int, queue: seq<Write>, posted: bool)

  datatype Core = Core(
    gen: Generation, token: string, instance: string, seqNo: nat, connected: bool,
    repeater: Lane, intruder: Lane)
  {
    function Lane(q: LaneName): Lane { if q.Repeater? then repeater else intruder }

    function With(q: LaneName, l: Lane): Core {
      if q.Repeater? then this.(repeater := l) else this.(intruder := l)
    }
  }

  /** The parts of a snapshot that the modelled handlers read. */
  datatype Snapshot = Snapshot(
    gen: Generation, seqNo: nat, hasBootInfo: bool, repeater: Option<Slice>, intruder: Option<Slice>,
    notesRev: nat, benchRev: Option<nat>)

  const EMPTY_SNAPSHOT := Snapshot(NO_GENERATION, 0, false, None, None, 0, None)

  function SnapshotOf(v: Version): Snapshot {
    Snapshot(v.gen, v.seqNo, true, v.repeater, v.intruder, v.notesRev, Some(v.benchRev))
  }

  function SliceOf(snap: Snapshot, q: LaneName): Slice {
    if q.Repeater? then snap.repeater.GetOr(REPEATER_DEFAULT) else snap.intruder.GetOr(INTRUDER_DEFAULT)
  }

  /** What the server's version shows in a draft. */
  function Shown(v: Version, q: LaneName): Slice { SliceOf(SnapshotOf(v), q) }

  /** The guard that protects a draft from a snapshot. */
  predicate KeepsDraft(projectChanged: bool, l: Lane, pollEpoch: nat) {
    !projectChanged && (l.pending != 0 || pollEpoch != l.epoch)
  }

  function ApplySnapshot(c: Core, snap: Snapshot, repeaterEpoch: nat, intruderEpoch: nat): Core {
    var changed := snap.gen != c.gen;
    var keepR := KeepsDraft(changed, c.repeater, repeaterEpoch);
    var keepI := KeepsDraft(changed, c.intruder, intruderEpoch);
    c.(gen := snap.gen, token := snap.gen.token, instance := snap.gen.instance,
       connected := snap.hasBootInfo,
       seqNo := if keepR || keepI then 0 else c.seqNo,
       repeater := if keepR then c.repeater else c.repeater.(draft := SliceOf(snap, Repeater)),
       intruder := if keepI then c.intruder else c.intruder.(draft := SliceOf(snap, Intruder)))
  }

  /** A completed poll with a full snapshot: NL._seq is taken before the drafts are judged. */
  function AcceptPoll(c: Core, snap: Snapshot, repeaterEpoch: nat, intruderEpoch: nat): Core {
    ApplySnapshot(c.(seqNo := snap.seqNo), snap, repeaterEpoch, intruderEpoch)
  }

  function Disconnected(c: Core): Core { c.(seqNo := 0, connected := false) }

  /** writeRepeater and writeIntruder up to the point where the promise is chained. */
  function IssueWrite(c: Core, q: LaneName, payload: Slice, optimistic: bool): Core {
    var l := c.Lane(q);
    c.With(q, l.(epoch := l.epoch + 1, pending := l.pending + 1,
                 draft := if optimistic then l.draft + payload else l.draft,
                 queue := l.queue + [Write(c.gen, c.token, payload)]))
  }

  /** The head of the chain runs: it is posted only while its generation is still the client's. */
  predicate MayPost(c: Core, q: LaneName)
    requires c.Lane(q).queue != []
  {
    c.Lane(q).queue[0].gen == c.gen
  }

  function PostHead(c: Core, q: LaneName): Core {
    c.With(q, c.Lane(q).(posted := true))
  }

  /** The head of the chain settles, fulfilled or rejected alike. */
  function SettleHead(c: Core, q: LaneName): Core
    requires c.Lane(q).queue != []
  {
    var l := c.Lane(q);
    c.With(q, l.(queue := l.queue[1..], pending := l.pending - 1, posted := false)).(seqNo := 0)
  }

  const IDLE_LANE := Lane(map[], 0, 0, [], false)

  /** The state right after the script's first, synchronous snapshot (EMPTY_SNAPSHOT when it failed). */
  function Boot(snap: Snapshot): Core {
    ApplySnapshot(Core(NO_GENERATION, "", "", 0, false,
                       IDLE_LANE.(draft := REPEATER_DEFAULT), IDLE_LANE.(draft := INTRUDER_DEFAULT)),
                  snap, 0, 0)
  }

  /** The generation of version i; -1 stands for a page that has had no snapshot yet. */
  function GenAt(h: seq<Version>, i: int): Generation
    requires i < |h|
  {
    if i < 0 then NO_GENERATION else h[i].gen
  }

  /** The client shows the generation of the snapshot delivered last, version `shown`. */
  predicate ClientOk(h: seq<Version>, c: Core, shown: int) {
    && -1 <= shown < |h|
    && c.gen == GenAt(h, shown)
    && c.token == c.gen.token && c.instance == c.gen.instance
    && (shown < 0 ==> !c.connected)
  }
}

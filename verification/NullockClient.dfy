/**
 * The NL object of ui-v2/real-data.js: its fields, and the event handlers that update them in
 * place. Each handler is proved to do what the pure handlers say to every modelled field.
 * The fields are spread over three classes; the notes and the Sequencer read the shared ones.
 */
module DraftFields {
  import opened ServerHistory
  import opened ClientState

  class Client {
    var generation: Generation
    var historyGeneration: string          // bootInfo.historyGeneration
    var instanceId: string
    var seqNo: nat
    var connected: bool

    var repeater: Slice
    var repeaterWriteEpoch: nat
    var repeaterPendingWrites: int
    var repeaterWrites: seq<Write>         // unsettled part of the promise chain
    var repeaterPosted: bool               // its head has been posted

    var intruder: Slice
    var intruderWriteEpoch: nat
    var intruderPendingWrites: int
    var intruderWrites: seq<Write>
    var intruderPosted: bool

    ghost function State(): Core
      reads this
    {
      Core.Core(generation, historyGeneration, instanceId, seqNo, connected,
                Lane.Lane(repeater, repeaterWriteEpoch, repeaterPendingWrites, repeaterWrites, repeaterPosted),
                Lane.Lane(intruder, intruderWriteEpoch, intruderPendingWrites, intruderWrites, intruderPosted))
    }

    /** applySnapshot's part in the fields above. */
    method ApplySnapshot(snap: Snapshot, repeaterEpoch: nat, intruderEpoch: nat)
      modifies this
      ensures State() == ClientState.ApplySnapshot(old(State()), snap, repeaterEpoch, intruderEpoch)
    {
      var projectChanged := snap.gen != generation;
      generation, instanceId, historyGeneration := snap.gen, snap.gen.instance, snap.gen.token;
      connected := snap.hasBootInfo;
      TakeRepeater(projectChanged, snap, repeaterEpoch);
      TakeIntruder(projectChanged, snap, intruderEpoch);
    }

    method TakeRepeater(projectChanged: bool, snap: Snapshot, pollEpoch: nat)
      modifies this
      ensures State() == if KeepsDraft(projectChanged, old(State()).repeater, pollEpoch) then old(State()).(seqNo := 0)
                         else old(State()).(repeater := old(State()).repeater.(draft := SliceOf(snap, Repeater)))
    {
      if !projectChanged && (repeaterPendingWrites != 0 || pollEpoch != repeaterWriteEpoch) {
        seqNo := 0;
      } else {
        repeater := SliceOf(snap, Repeater);
      }
    }

    method TakeIntruder(projectChanged: bool, snap: Snapshot, pollEpoch: nat)
      modifies this
      ensures State() == if KeepsDraft(projectChanged, old(State()).intruder, pollEpoch) then old(State()).(seqNo := 0)
                         else old(State()).(intruder := old(State()).intruder.(draft := SliceOf(snap, Intruder)))
    {
      if !projectChanged && (intruderPendingWrites != 0 || pollEpoch != intruderWriteEpoch) {
        seqNo := 0;
      } else {
        intruder := SliceOf(snap, Intruder);
      }
    }

    method Disconnected()
      modifies this
      ensures State() == ClientState.Disconnected(old(State()))
    {
      seqNo := 0;
      if connected {
        connected := false;
      }
    }

    method WriteRepeater(payload: Slice, optimistic: bool)
      modifies this
      ensures State() == IssueWrite(old(State()), Repeater, payload, optimistic)
    {
      repeaterWriteEpoch := repeaterWriteEpoch + 1;
      repeaterPendingWrites := repeaterPendingWrites + 1;
      if optimistic {
        repeater := repeater + payload;
      }
      repeaterWrites := repeaterWrites + [Write(generation, historyGeneration, payload)];
    }

    method WriteIntruder(payload: Slice, optimistic: bool)
      modifies this
      ensures State() == IssueWrite(old(State()), Intruder, payload, optimistic)
    {
      intruderWriteEpoch := intruderWriteEpoch + 1;
      intruderPendingWrites := intruderPendingWrites + 1;
      if optimistic {
        intruder := intruder + payload;
      }
      intruderWrites := intruderWrites + [Write(generation, historyGeneration, payload)];
    }

    /** The body of the write at the head of a chain, up to its request; false when it throws first. */
    method StartWrite(q: LaneName) returns (posted: bool)
      requires State().Lane(q).queue != []
      modifies this
      ensures posted == MayPost(old(State()), q)
      ensures State() == if posted then PostHead(old(State()), q) else SettleHead(old(State()), q)
    {
      var head := if q.Repeater? then repeaterWrites[0] else intruderWrites[0];
      posted := head.gen == generation;
      if !posted {
        SettleWrite(q);
      } else if q.Repeater? {
        repeaterPosted := true;
      } else {
        intruderPosted := true;
      }
    }

    /** The finally handler of a queued write. */
    method SettleWrite(q: LaneName)
      requires State().Lane(q).queue != []
      modifies this
      ensures State() == SettleHead(old(State()), q)
    {
      if q.Repeater? {
        repeaterWrites, repeaterPosted := repeaterWrites[1..], false;
        repeaterPendingWrites := repeaterPendingWrites - 1;
      } else {
        intruderWrites, intruderPosted := intruderWrites[1..], false;
        intruderPendingWrites := intruderPendingWrites - 1;
      }
      seqNo := 0;
    }
  }
}

module NoteFields {
  import opened Basics
  import opened ServerHistory
  import opened ClientState
  import opened NotesSync
  import DraftFields

  class Annotations {
    const nl: DraftFields.Client
    var annotationsRevision: nat           // bootInfo.annotationsRevision
    var historyAnnotations: map<nat, string>
    var loadedRevision: Option<nat>
    var error: bool
    var writeEpoch: nat
    var pending: Option<(Generation, nat)>
    var retryAt: int
    var writes: seq<NoteWrite>
    var posted: bool

    constructor (nl: DraftFields.Client)
      ensures this.nl == nl
      ensures State() == NoteState(0, map[], None, false, 0, None, 0, [], false)
    {
      this.nl := nl;
      annotationsRevision, historyAnnotations, loadedRevision, error := 0, map[], None, false;
      writeEpoch, pending, retryAt, writes, posted := 0, None, 0, [], false;
    }

    ghost function State(): NoteState
      reads this
    {
      NoteState(annotationsRevision, historyAnnotations, loadedRevision, error, writeEpoch, pending, retryAt, writes, posted)
    }

    /** applySnapshot's part in the fields above; it runs before nl takes the new generation. */
    method ApplySnapshot(snap: Snapshot)
      modifies this
      ensures State() == NotesSnapshot(nl.State(), old(State()), snap)
    {
      if snap.gen != nl.generation {
        historyAnnotations := map[];
        loadedRevision := None;
        error := false;
        retryAt := 0;
      }
      annotationsRevision := snap.notesRev;
    }

    method AcceptAnnotations(data: NoteData, gen: Generation, revision: nat) returns (accepted: bool)
      modifies this
      ensures accepted == Accepts(nl.State(), old(State()), data, gen, revision)
      ensures State() == NotesSync.AcceptAnnotations(nl.State(), old(State()), data, gen, revision)
    {
      if gen != nl.generation || data.token != nl.historyGeneration
         || (revision != 0 && (revision != annotationsRevision || data.rev != revision)) {
        return false;
      }
      historyAnnotations := data.notes;
      loadedRevision := Some(data.rev);
      error := false;
      return true;
    }

    /** refreshAnnotations at time `now`, up to its request: the generation, revision and epoch it remembers. */
    method RefreshAnnotations(now: int) returns (fetch: Option<(Generation, nat, nat)>)
      modifies this
      ensures fetch == if MayFetch(nl.State(), old(State()), now)
                       then Some((nl.generation, annotationsRevision, writeEpoch)) else None
      ensures State() == if fetch.Some? then old(State()).(pendingKey := Some((nl.generation, annotationsRevision))) else old(State())
    {
      var key := (nl.generation, annotationsRevision);
      if !nl.connected || annotationsRevision == 0 || Some(annotationsRevision) == loadedRevision || pending == Some(key)
         || now < retryAt {
        return None;
      }
      pending := Some(key);
      return Some((nl.generation, annotationsRevision, writeEpoch));
    }

    /** refreshAnnotations from its answer on, at time `now`. */
    method FinishRefresh(gen: Generation, revision: nat, epoch: nat, answer: Option<NoteData>, now: int)
      modifies this
      ensures State() == FinishFetch(nl.State(), old(State()), gen, revision, epoch, answer, now)
    {
      if answer.Some? {
        if epoch == writeEpoch {
          var _ := AcceptAnnotations(answer.value, gen, revision);
        }
      } else if gen == nl.generation && revision == annotationsRevision && epoch == writeEpoch {
        error := true;
        retryAt := now + RETRY_DELAY;
      }
      if pending == Some((gen, revision)) {
        pending := None;
      }
    }

    /** annotateHistory up to the point where the promise is chained. */
    method AnnotateHistory()
      modifies this
      ensures State() == old(State()).(queue := old(writes) + [NoteWrite(nl.generation, nl.historyGeneration)])
    {
      writes := writes + [NoteWrite(nl.generation, nl.historyGeneration)];
    }

    /** The write at the head of the chain starts; false when it throws before its request. */
    method StartAnnotation() returns (sent: bool)
      requires writes != []
      modifies this
      ensures sent == (old(writes)[0].gen == nl.generation)
      ensures State() == if sent then old(State()).(posted := true) else SettleNote(nl.State(), old(State()), None)
    {
      sent := writes[0].gen == nl.generation;
      if sent {
        posted := true;
      } else {
        SettleAnnotation(None);
      }
    }

    /** The write at the head of annotateHistory's chain is over (None: it threw). */
    method SettleAnnotation(answer: Option<NoteData>)
      requires writes != []
      modifies this
      ensures State() == SettleNote(nl.State(), old(State()), answer)
    {
      var w := writes[0];
      writes, posted := writes[1..], false;
      if answer.Some? && w.gen == nl.generation {
        writeEpoch := writeEpoch + 1;
        annotationsRevision := answer.value.rev;
        var _ := AcceptAnnotations(answer.value, w.gen, 0);
      }
    }
  }
}

module BenchFields {
  import opened Basics
  import opened ServerHistory
  import opened ClientState
  import opened BenchSync
  import DraftFields

  class Sequencer {
    const nl: DraftFields.Client
    var workspace: Option<Workspace>
    var error: string
    var epoch: nat
    var pending: int
    var writes: seq<BenchWrite>
    var posted: bool
    var fetching: bool
    var revision: Option<nat>              // NL._sequencerRevision

    constructor (nl: DraftFields.Client)
      ensures this.nl == nl
      ensures State() == BenchState(None, "", 0, 0, [], false, false, None)
    {
      this.nl := nl;
      workspace, error, epoch, pending := None, "", 0, 0;
      writes, posted, fetching, revision := [], false, false, None;
    }

    ghost function State(): BenchState
      reads this
    {
      BenchState(workspace, error, epoch, pending, writes, posted, fetching, revision)
    }

    /** applySnapshot's part in the fields above; it runs before nl takes the new generation. */
    method ApplySnapshot(snap: Snapshot)
      modifies this
      ensures State() == BenchSnapshot(nl.State(), old(State()), snap)
    {
      if snap.gen != nl.generation {
        workspace := None;
        error := "";
      }
      revision := snap.benchRev;
    }

    method WriteSequencer(call: Call, optimistic: bool)
      modifies this
      ensures State() == IssueBench(nl.State(), old(State()), call, optimistic)
    {
      epoch, pending := epoch + 1, pending + 1;
      if optimistic && workspace.Some? {
        var w := workspace.value;
        workspace := Some(w.(draft := w.draft + call.Fields()));
      }
      writes := writes + [BenchWrite(nl.generation, nl.historyGeneration, call)];
    }

    /** The write at the head of the chain starts: the textRevision its request carries, or None when it throws first. */
    method StartWrite() returns (textRevision: Option<int>)
      requires writes != []
      modifies this, nl
      ensures textRevision.Some? <==> BenchSync.MayPost(old(nl.State()), old(State()))
      ensures textRevision.Some? ==> textRevision.value == TextRevision(old(State()))
      ensures textRevision.Some? ==> State() == old(State()).(posted := true) && nl.State() == old(nl.State())
      ensures textRevision.None? ==> nl.State() == old(nl.State()).(seqNo := 0)
      ensures textRevision.None? ==> State() == RejectBench(old(nl.State()), old(State()),
                if old(writes)[0].gen == old(nl.generation) then old(error) else "Project changed; reopen Sequencer")
    {
      if writes[0].gen != nl.generation {
        Reject("Project changed; reopen Sequencer");
        return None;
      }
      if error != "" {
        Reject(error);
        return None;
      }
      posted := true;
      textRevision := Some(if workspace.Some? then workspace.value.textRev else -1);
    }

    /** The write at the head of the chain succeeds (None: the answer has no draft). */
    method Fulfil(answer: Option<Workspace>)
      requires writes != []
      modifies this, nl
      ensures State() == FulfilBench(old(nl.State()), old(State()), answer)
      ensures nl.State() == old(nl.State()).(seqNo := 0)
    {
      if writes[0].gen == nl.generation && answer.Some? {
        var draft := if pending > 1 && workspace.Some? then workspace.value.draft else answer.value.draft;
        workspace := Some(answer.value.(draft := draft));
      }
      Settle();
    }

    /** It fails, or throws before it is posted. */
    method Reject(message: string)
      requires writes != []
      modifies this, nl
      ensures State() == RejectBench(old(nl.State()), old(State()), message)
      ensures nl.State() == old(nl.State()).(seqNo := 0)
    {
      if writes[0].gen == nl.generation {
        error := message;
      }
      Settle();
    }

    method Settle()
      requires writes != []
      modifies this, nl
      ensures State() == old(State()).(queue := old(writes)[1..], pending := old(pending) - 1, posted := false)
      ensures nl.State() == old(nl.State()).(seqNo := 0)
    {
      writes, posted := writes[1..], false;
      pending := pending - 1;
      nl.seqNo := 0;
    }

    /** refreshSequencer up to its request. */
    method RefreshSequencer() returns (fetch: Option<(Generation, nat)>)
      modifies this
      ensures fetch == if MayFetch(old(State())) then Some((nl.generation, epoch)) else None
      ensures State() == old(State()).(fetching := fetch.Some? || old(fetching))
    {
      if fetching || pending != 0 || error != "" || (workspace.Some? && Some(workspace.value.rev) == revision) {
        return None;
      }
      fetching := true;
      return Some((nl.generation, epoch));
    }

    /** refreshSequencer from its answer on. */
    method FinishRefresh(gen: Generation, sentEpoch: nat, answer: Option<Version>)
      modifies this
      ensures State() == FinishFetch(nl.State(), old(State()), gen, sentEpoch, answer)
    {
      if answer.Some? && gen == nl.generation && sentEpoch == epoch && pending == 0
         && answer.value.gen.token == nl.historyGeneration {
        workspace := Some(DataOf(answer.value));
      }
      fetching := false;
    }

    /** sequencerReload, with the fetch it starts. */
    method Reload() returns (fetch: Option<(Generation, nat)>)
      modifies this
      ensures fetch == if old(pending) == 0 && !old(fetching) then Some((nl.generation, epoch)) else None
      ensures State() == BenchSync.Reload(old(State())).(fetching := fetch.Some? || old(fetching))
    {
      if pending != 0 {
        return None;
      }
      error, workspace := "", None;
      epoch := epoch + 1;
      fetch := RefreshSequencer();
    }
  }
}

module NullockClient {
  import opened ClientState
  import opened DraftFields
  import opened NoteFields
  import opened BenchFields
  import NotesSync
  import BenchSync

  /** applySnapshot: every part judges the snapshot by the generation shown before it. */
  method ApplySnapshot(nl: Client, notes: Annotations, bench: Sequencer, snap: Snapshot, repeaterEpoch: nat, intruderEpoch: nat)
    requires notes.nl == nl == bench.nl
    modifies nl, notes, bench
    ensures nl.State() == ClientState.ApplySnapshot(old(nl.State()), snap, repeaterEpoch, intruderEpoch)
    ensures notes.State() == NotesSync.NotesSnapshot(old(nl.State()), old(notes.State()), snap)
    ensures bench.State() == BenchSync.BenchSnapshot(old(nl.State()), old(bench.State()), snap)
  {
    notes.ApplySnapshot(snap);
    bench.ApplySnapshot(snap);
    nl.ApplySnapshot(snap, repeaterEpoch, intruderEpoch);
  }

  /** The load handler of a poll answered with a full snapshot. */
  method AcceptPoll(nl: Client, notes: Annotations, bench: Sequencer, snap: Snapshot, repeaterEpoch: nat, intruderEpoch: nat)
    requires notes.nl == nl == bench.nl
    modifies nl, notes, bench
    ensures nl.State() == ClientState.AcceptPoll(old(nl.State()), snap, repeaterEpoch, intruderEpoch)
    ensures notes.State() == NotesSync.NotesSnapshot(old(nl.State()), old(notes.State()), snap)
    ensures bench.State() == BenchSync.BenchSnapshot(old(nl.State()), old(bench.State()), snap)
  {
    nl.seqNo := snap.seqNo;
    ApplySnapshot(nl, notes, bench, snap, repeaterEpoch, intruderEpoch);
  }
}

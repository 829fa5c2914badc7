/**
 * What the client of ui-v2/real-data.js may assume about the control server.
 *
 * The server is the list of all the states it has ever been in. Each change appends one
 * version, and every answer (snapshot, write acknowledgement, notes, Sequencer workspace) is
 * read off a single version, so an answer is modelled by the index of that version.
 */
module ServerHistory {
  import opened Basics

  /** A draft as JSON: field name to field value. `{...a, ...b}` is `a + b`. */
  type Slice = map<string, string>

  /** The three parts the client joins into NL._generation. */
  datatype Generation = Generation(instance: string, project: string, token: string)

  datatype Queue = Repeater | Intruder | Notes | Bench

  /** The n-th write this client issued on one of its queues. */
  datatype WriteId = WriteId(queue: Queue, n: nat)

  /** The answer to a write; `at` is the version the server answered from. */
  datatype Reply = NoReply | Replied(ok: bool, at: nat)

  /** Who changed the Sequencer text. */
  datatype Author = Us(n: nat) | Them

  datatype Version = Version(
    instance: string, seqNo: nat, gen: Generation,
    repeater: Option<Slice>, intruder: Option<Slice>,
    notesRev: nat, notes: map<nat, string>,
    benchRev: nat, draft: Slice, textRev: nat, textLog: seq<Author>,
    accepted: set<WriteId>)  // every write of this client the server has ever accepted

  predicate WellFormed(v: Version) {
    v.gen.instance == v.instance && v.gen.token != ""
  }

  /** Annotation revisions grow with every change of the notes. */
  predicate NotesFollow(u: Version, v: Version) {
    u.notesRev <= v.notesRev && (u.notesRev == v.notesRev ==> u.notes == v.notes)
  }

  /** The Sequencer text. */
  function Corpus(v: Version): string { if "text" in v.draft then v.draft["text"] else "" }

  /** Text revisions grow with every change of the Sequencer text, and the text changes in no other way. */
  predicate TextFollows(u: Version, v: Version) {
    && u.textLog <= v.textLog
    && u.textRev <= v.textRev
    && (u.textRev == v.textRev <==> u.textLog == v.textLog)
    && (u.textLog == v.textLog ==> Corpus(u) == Corpus(v))
  }

  /** The server rules: may `v` be the next version after `h`? */
  predicate Follows(h: seq<Version>, v: Version)
    requires |h| > 0
  {
    var u := h[|h| - 1];
    && WellFormed(v)
    // seq strictly grows; instance ids and generation tokens are never reused
    && (if v.instance == u.instance then u.seqNo < v.seqNo
        else forall j | 0 <= j < |h| :: h[j].instance != v.instance)
    && (v.gen == u.gen || forall j | 0 <= j < |h| :: h[j].gen.token != v.gen.token)
    && u.accepted <= v.accepted
    && (v.gen == u.gen ==> NotesFollow(u, v) && TextFollows(u, v))
  }

  predicate Lawful(h: seq<Version>) {
    && |h| > 0
    && WellFormed(h[0]) && h[0].accepted == {}
    && forall i {:trigger h[..i]} | 1 <= i < |h| :: Follows(h[..i], h[i])
  }

  lemma LawfulGrows(h: seq<Version>, v: Version)
    requires Lawful(h) && Follows(h, v)
    ensures Lawful(h + [v])
  {
    var g := h + [v];
    forall i | 1 <= i < |g| ensures Follows(g[..i], g[i]) {
      assert g[..i] == if i < |h| then h[..i] else h;
    }
  }

  lemma LawfulWellFormed(h: seq<Version>, i: nat)
    requires Lawful(h) && i < |h|
    ensures WellFormed(h[i])
  {
    assert i > 0 ==> Follows(h[..i], h[i]);
  }

  /** Since tokens are never reused, a generation is one unbroken stretch of the history. */
  lemma {:induction false} GenerationBlock(h: seq<Version>, i: nat, j: nat, k: nat)
    requires Lawful(h) && i <= j <= k < |h| && h[i].gen.token == h[k].gen.token
    ensures h[j].gen == h[k].gen
    decreases k
  {
    if j < k {
      assert Follows(h[..k], h[k]) && h[..k][k - 1] == h[k - 1] && h[..k][i] == h[i];
      GenerationBlock(h, i, j, k - 1);
    }
  }

  lemma {:induction false} InstanceBlock(h: seq<Version>, i: nat, k: nat)
    requires Lawful(h) && i < k < |h| && h[i].instance == h[k].instance
    ensures h[i].seqNo < h[k].seqNo
    decreases k
  {
    assert Follows(h[..k], h[k]) && h[..k][k - 1] == h[k - 1] && h[..k][i] == h[i];
    if i < k - 1 {
      InstanceBlock(h, i, k - 1);
    }
  }

  /** An instance id and a seq name one version: this is what makes a 304 meaningful. */
  lemma VersionIdUnique(h: seq<Version>, i: nat, k: nat)
    requires Lawful(h) && i < |h| && k < |h|
    requires h[i].instance == h[k].instance && h[i].seqNo == h[k].seqNo
    ensures i == k
  {
    if i < k {
      InstanceBlock(h, i, k);
    } else if k < i {
      InstanceBlock(h, k, i);
    }
  }

  lemma {:induction false} AcceptedGrows(h: seq<Version>, i: nat, k: nat)
    requires Lawful(h) && i <= k < |h|
    ensures h[i].accepted <= h[k].accepted
    decreases k
  {
    if i < k {
      assert Follows(h[..k], h[k]) && h[..k][k - 1] == h[k - 1];
      AcceptedGrows(h, i, k - 1);
    }
  }

  /** Within a generation a notes revision names one set of notes and never goes back. */
  lemma {:induction false} NotesDetermined(h: seq<Version>, i: nat, k: nat)
    requires Lawful(h) && i <= k < |h| && h[i].gen.token == h[k].gen.token
    ensures NotesFollow(h[i], h[k])
    decreases k
  {
    if i < k {
      assert Follows(h[..k], h[k]) && h[..k][k - 1] == h[k - 1];
      GenerationBlock(h, i, k - 1, k);
      NotesDetermined(h, i, k - 1);
    }
  }

  lemma {:induction false} TextDetermined(h: seq<Version>, i: nat, k: nat)
    requires Lawful(h) && i <= k < |h| && h[i].gen.token == h[k].gen.token
    ensures TextFollows(h[i], h[k])
    decreases k
  {
    if i < k {
      assert Follows(h[..k], h[k]) && h[..k][k - 1] == h[k - 1];
      GenerationBlock(h, i, k - 1, k);
      TextDetermined(h, i, k - 1);
    }
  }
}

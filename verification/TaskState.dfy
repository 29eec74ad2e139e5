/** The task lifecycle graph of internal/transfer/tasks/state.go. */
module TaskState {

  datatype Status =
    | Queued | Downloading | Downloaded | Uploading | Registering | Ready | Failed | Dead

  /** The transition table. */
  function Successors(s: Status): set<Status> {
    match s
    case Queued => {Downloading}
    case Downloading => {Downloaded, Failed}
    case Downloaded => {Uploading, Failed}
    case Uploading => {Registering, Failed}
    case Registering => {Ready, Failed}
    case Failed => {Downloading, Dead}
    case Ready => {}
    case Dead => {}
  }

  predicate Can(from: Status, to: Status) {
    to in Successors(from)
  }

  predicate Terminal(s: Status) {
    s.Ready? || s.Dead?
  }

  /** What the store lets a write do to a status: follow an edge or leave it as it is. */
  predicate Allowed(from: Status, to: Status) {
    from == to || Can(from, to)
  }

  /** A history in which consecutive entries follow edges or repeat. */
  ghost predicate Path(h: seq<Status>) {
    forall i :: 0 <= i < |h| - 1 ==> Allowed(h[i], h[i + 1])
  }

  /** The eleven edges of the graph, and no other. */
  lemma Edges(s: Status, t: Status)
    ensures Can(s, t) <==>
              (s, t) in {(Queued, Downloading), (Downloading, Downloaded), (Downloaded, Uploading), (Uploading, Registering),
                         (Registering, Ready), (Downloading, Failed), (Downloaded, Failed), (Uploading, Failed),
                         (Registering, Failed), (Failed, Downloading), (Failed, Dead)}
  {
  }

  /** Nothing is buried that did not fail last: the first dead entry of a history stands behind a failed one. */
  lemma {:induction false} DeadAfterFailed(h: seq<Status>, j: nat)
    requires Path(h) && j < |h| && h[0] != Dead && h[j] == Dead
    ensures exists i :: 0 <= i < j && h[i] == Failed && h[i + 1] == Dead
    decreases j
  {
    assert Allowed(h[j - 1], h[j]);
    if h[j - 1] == Dead { DeadAfterFailed(h, j - 1); }
  }

  /** Terminal means absorbing: exactly the terminal states have no way out. */
  lemma TerminalIsSink(s: Status)
    ensures Terminal(s) <==> forall t :: !Can(s, t)
  {
    match s
    case Queued => assert Can(s, Downloading);
    case Downloading => assert Can(s, Failed);
    case Downloaded => assert Can(s, Failed);
    case Uploading => assert Can(s, Failed);
    case Registering => assert Can(s, Failed);
    case Failed => assert Can(s, Dead);
    case Ready =>
    case Dead =>
  }

  /** A history never leaves a terminal status. */
  lemma {:induction false} TerminalAbsorbs(h: seq<Status>, i: nat, j: nat)
    requires Path(h) && i <= j < |h| && Terminal(h[i])
    ensures h[j] == h[i]
    decreases j - i
  {
    if i < j {
      assert Allowed(h[i], h[i + 1]);
      TerminalAbsorbs(h, i + 1, j);
    }
  }

  /** How far a status is along the happy path. */
  function Stage(s: Status): nat {
    match s
    case Queued => 0
    case Failed => 0
    case Dead => 0
    case Downloading => 1
    case Downloaded => 2
    case Uploading => 3
    case Registering => 4
    case Ready => 5
  }

  /** No history skips a stage: before reaching a stage it was at every earlier one, in this order. */
  lemma {:induction false} StagesInOrder(h: seq<Status>, j: nat, stage: nat)
    requires Path(h) && j < |h| && Stage(h[0]) < stage <= Stage(h[j])
    ensures exists i :: 0 < i <= j && Stage(h[i]) == stage
    decreases j
  {
    if Stage(h[j]) != stage {
      assert Allowed(h[j - 1], h[j]);
      StagesInOrder(h, j - 1, stage);
    }
  }
}

/** Copying snapshots. */
module SnapshotStreams {
  /*
   The host enqueues work on two FIFO streams and goes on; the compute stream stages the state in a
   device buffer, the copy stream moves the buffer to pinned host memory, and two events order them.
   Copies take effect piece by piece, and the host, the compute stream and the copy stream interleave
   freely.  The result to prove is that all of this refines a sequential machine in which a capture and
   a restore are instantaneous.
  */

  type Piece(!new)
  type Vec = seq<Piece>

  datatype ComputeOp =
    | Advance(f: Vec -> Vec)                         // the kernels of a chunk, or the clearing of a reset
    | Stage(done: nat)                               // device state -> staging buffer
    | Signal(ticket: nat)                            // record the event "staged"
    | Load(slot: nat, done: nat, want: Vec)          // host slot -> device state; `want` is for the proof only

  datatype CopyOp =
    | Wait(ticket: nat)                              // wait for the event "staged"
    | ToHost(slot: nat, done: nat)                   // staging buffer -> host slot
    | Signal2(ticket: nat)                           // record the event "host copy done"

  // What the host still has to do for the call it is in.
  datatype Pc =
    | Idle
    | DrainToCapture | DoStage | DoSignal | DoWait | DoCopy | DoSignal2 | DoCommit
    | DrainToRestore(slot: nat)

  datatype Snap = Empty | Taken(pos: nat, state: Vec)

  /** The sequential machine: what the host believes. */
  datatype Spec = Spec(kda: Vec, pos: nat, snaps: seq<Snap>)

  datatype State = State(
    kda: Vec, stage: Vec, host: seq<Vec>,
    compute: seq<ComputeOp>, copy: seq<CopyOp>,
    evRecorded: nat, evDone: nat, ev2Recorded: nat, ev2Done: nat,
    pc: Pc, next: nat,
    spec: Spec, target: nat, value: Vec)             // slot and value of the latest capture

  datatype Action =
    | Launch(f: Vec -> Vec, rows: nat)
    | Capture | Restore(slot: nat) | Forget(slot: nat)   // calls of the host; Forget discards a suffix's snapshot
    | HostStep
    | ComputeStep | CopyStep

  ghost predicate KeepsLength(f: Vec -> Vec, n: nat) {
    forall x: Vec :: |x| == n ==> |f(x)| == n
  }

  ghost predicate Enabled(s: State, a: Action) {
    match a
    case Launch(f, _) => s.pc.Idle? && KeepsLength(f, |s.kda|)
    case Capture => s.pc.Idle?
    case Forget(slot) => s.pc.Idle? && slot < |s.spec.snaps|
    case Restore(slot) => s.pc.Idle? && slot < |s.spec.snaps| && s.spec.snaps[slot].Taken?
    case HostStep => !s.pc.Idle? && ((s.pc.DrainToCapture? || s.pc.DrainToRestore?) ==> s.ev2Done >= s.ev2Recorded)
    case ComputeStep => s.compute != []
    case CopyStep => s.copy != [] && (s.copy[0].Wait? ==> s.evDone >= s.copy[0].ticket)
  }

  function HostMove(s: State): State {
    match s.pc
    case Idle => s
    case DrainToCapture => s.(pc := DoStage)
    case DoStage =>
      s.(compute := s.compute + [Stage(0)], pc := DoSignal,
         target := s.next, value := s.spec.kda,
         spec := if s.next >= |s.spec.snaps| then s.spec
                 else s.spec.(snaps := s.spec.snaps[s.next := Taken(s.spec.pos, s.spec.kda)]))
    case DoSignal =>
      s.(compute := s.compute + [Signal(s.evRecorded + 1)], evRecorded := s.evRecorded + 1, pc := DoWait)
    case DoWait => s.(copy := s.copy + [Wait(s.evRecorded)], pc := DoCopy)
    case DoCopy => s.(copy := s.copy + [ToHost(s.next, 0)], pc := DoSignal2)
    case DoSignal2 =>
      s.(copy := s.copy + [Signal2(s.ev2Recorded + 1)], ev2Recorded := s.ev2Recorded + 1, pc := DoCommit)
    case DoCommit => s.(next := if s.next + 1 >= |s.host| then 0 else s.next + 1, pc := Idle)
    case DrainToRestore(slot) =>
      if slot < |s.spec.snaps| && s.spec.snaps[slot].Taken? then
        var snap := s.spec.snaps[slot];
        s.(compute := s.compute + [Load(slot, 0, snap.state)], pc := Idle,
           spec := s.spec.(kda := snap.state, pos := snap.pos))
      else s
  }

  function ComputeMove(s: State): State
    requires s.compute != []
  {
    var rest := s.compute[1..];
    match s.compute[0]
    case Advance(f) => s.(kda := f(s.kda), compute := rest)
    case Signal(t) => s.(evDone := t, compute := rest)
    case Stage(d) =>
      if d < |s.kda| && d < |s.stage| then s.(stage := s.stage[d := s.kda[d]], compute := [Stage(d + 1)] + rest)
      else s.(compute := rest)
    case Load(slot, d, want) =>
      if slot < |s.host| && d < |s.kda| && d < |s.host[slot]|
      then s.(kda := s.kda[d := s.host[slot][d]], compute := [Load(slot, d + 1, want)] + rest)
      else s.(compute := rest)
  }

  function CopyMove(s: State): State
    requires s.copy != []
  {
    var rest := s.copy[1..];
    match s.copy[0]
    case Wait(_) => s.(copy := rest)
    case Signal2(t) => s.(ev2Done := t, copy := rest)
    case ToHost(slot, d) =>
      if slot < |s.host| && d < |s.host[slot]| && d < |s.stage|
      then s.(host := s.host[slot := s.host[slot][d := s.stage[d]]], copy := [ToHost(slot, d + 1)] + rest)
      else s.(copy := rest)
  }

  function Move(s: State, a: Action): State
    requires a.ComputeStep? ==> s.compute != []
    requires a.CopyStep? ==> s.copy != []
  {
    match a
    case Launch(f, rows) =>
      s.(compute := s.compute + [Advance(f)], spec := s.spec.(kda := f(s.spec.kda), pos := s.spec.pos + rows))
    case Capture => s.(pc := DrainToCapture)
    case Forget(slot) =>
      if slot < |s.spec.snaps| then s.(spec := s.spec.(snaps := s.spec.snaps[slot := Empty])) else s
    case Restore(slot) => s.(pc := DrainToRestore(slot))
    case HostStep => HostMove(s)
    case ComputeStep => ComputeMove(s)
    case CopyStep => CopyMove(s)
  }

  ghost predicate Init(s: State, n: nat) {
    && |s.kda| == |s.stage| == n && |s.host| > 0 && s.next < |s.host|
    && (forall i :: 0 <= i < |s.host| ==> |s.host[i]| == n)
    && s.compute == [] && s.copy == [] && s.pc.Idle?
    && s.evRecorded == s.evDone == s.ev2Recorded == s.ev2Done == 0
    && s.spec == Spec(s.kda, 0, seq(|s.host|, _ => Empty))
    && s.target == s.next && s.value == s.stage
  }

  // ------------------------------------------------------------------ the invariant

  /** The state once the queue has run. */
  function After(x: Vec, q: seq<ComputeOp>): Vec
    decreases |q|
  {
    if q == [] then x else After(Effect(x, q[0]), q[1..])
  }

  function Effect(x: Vec, op: ComputeOp): Vec {
    match op
    case Advance(f) => f(x)
    case Load(_, _, want) => want
    case _ => x
  }

  /** The staging buffer once the queue has run. */
  function StageAfter(x: Vec, stage: Vec, q: seq<ComputeOp>): Vec
    decreases |q|
  {
    if q == [] then stage
    else StageAfter(Effect(x, q[0]), if q[0].Stage? then x else stage, q[1..])
  }

  // How many of the three copy-stream operations of the latest capture the host has enqueued.
  function Enqueued(pc: Pc): nat {
    match pc
    case DoSignal => 0
    case DoWait => 0
    case DoCopy => 1
    case DoSignal2 => 2
    case _ => 3
  }

  // ... and how many of them the copy stream has finished.
  function Finished(s: State): int {
    Enqueued(s.pc) - |s.copy|
  }

  function Done(q: seq<CopyOp>): nat {
    if q != [] && q[0].ToHost? then q[0].done else 0
  }

  // The first `d` pieces are already the same.
  ghost predicate Agree(a: Vec, b: Vec, d: nat) {
    forall i :: 0 <= i < d && i < |a| && i < |b| ==> a[i] == b[i]
  }

  ghost predicate Shapes(s: State, n: nat) {
    && |s.kda| == |s.stage| == |s.spec.kda| == |s.value| == n
    && |s.host| == |s.spec.snaps| > 0 && s.next < |s.host| && s.target < |s.host|
    && (forall i :: 0 <= i < |s.host| ==> |s.host[i]| == n)
    && (forall i :: 0 <= i < |s.spec.snaps| && s.spec.snaps[i].Taken? ==> |s.spec.snaps[i].state| == n)
    && (s.pc.DrainToRestore? ==> s.pc.slot < |s.spec.snaps| && s.spec.snaps[s.pc.slot].Taken?)
    && ((s.pc.DoSignal? || s.pc.DoWait? || s.pc.DoCopy? || s.pc.DoSignal2? || s.pc.DoCommit?) ==> s.target == s.next)
  }

  /** The copy queue is what is left of wait, copy, record. */
  ghost predicate CopyQueue(s: State) {
    var x := Finished(s);
    && 0 <= x <= 3
    && (forall k :: 0 <= k < |s.copy| ==>
          match x + k
          case 0 => s.copy[k] == Wait(s.evRecorded)
          case 1 => s.copy[k].ToHost? && s.copy[k].slot == s.target && (k == 0 || s.copy[k].done == 0)
          case _ => s.copy[k] == Signal2(s.ev2Recorded))
    && (s.pc.DoStage? ==> x == 3)
    && s.ev2Done <= s.ev2Recorded && (s.ev2Done == s.ev2Recorded || s.ev2Done + 1 == s.ev2Recorded)
    && (s.ev2Done == s.ev2Recorded <==> (x == 3 || Enqueued(s.pc) < 3))
  }

  /** Operations of the compute queue in progress or still ahead. */
  ghost predicate ComputeQueue(s: State, n: nat) {
    && (forall j :: 0 <= j < |s.compute| ==> OpFits(s, s.compute[j], j == 0, n))
    && (forall j, k :: 0 <= j < k < |s.compute| && (s.compute[j].Stage? || s.compute[j].Signal?) ==>
          !s.compute[k].Load? && !s.compute[k].Stage?)
    && (forall j, k :: 0 <= j < k < |s.compute| && s.compute[j].Signal? ==> s.compute[k].Advance?)
  }

  ghost predicate OpFits(s: State, op: ComputeOp, first: bool, n: nat) {
    match op
    case Advance(f) => KeepsLength(f, n)
    case Signal(t) => t == s.evRecorded && s.evDone < t && !s.pc.DoSignal?
    case Stage(d) =>
      && d <= n && (if first then Agree(s.stage, s.kda, d) else d == 0)
      && (s.evDone < s.evRecorded || s.pc.DoSignal?)
    case Load(slot, d, want) =>
      && slot < |s.host| && d <= n && s.host[slot] == want
      && (if first then Agree(s.kda, want, d) else d == 0)
  }

  /** Once the staging is signalled, and until the host has drained, the queue holds nothing but kernels. */
  ghost predicate Ordered(s: State) {
    && s.evDone <= s.evRecorded
    && (Finished(s) >= 1 && Enqueued(s.pc) >= 1 ==> s.evDone == s.evRecorded)
    && (s.evDone < s.evRecorded ==> exists j :: 0 <= j < |s.compute| && s.compute[j].Signal?)
    && (s.evDone == s.evRecorded && !s.pc.DoSignal? && Finished(s) < 3 ==>
          forall j :: 0 <= j < |s.compute| ==> s.compute[j].Advance?)
    && (s.pc.DoSignal? ==> forall j :: 0 <= j < |s.compute| ==> !s.compute[j].Signal?)
  }

  ghost predicate Contents(s: State)
    requires |s.host| == |s.spec.snaps| && s.target < |s.host|
  {
    && After(s.kda, s.compute) == s.spec.kda
    && (Finished(s) < 3 ==> StageAfter(s.kda, s.stage, s.compute) == s.value)
    && (Finished(s) == 1 ==> Agree(s.host[s.target], s.value, Done(s.copy)))
    && (forall i :: 0 <= i < |s.host| && s.spec.snaps[i].Taken? ==>
          s.spec.snaps[i].state == if i == s.target && Finished(s) < 2 then s.value else s.host[i])
  }

  ghost predicate Inv(s: State, n: nat) {
    && Shapes(s, n) && CopyQueue(s) && ComputeQueue(s, n) && Ordered(s) && Contents(s)
  }

  lemma {:induction false} AfterSnoc(x: Vec, stage: Vec, q: seq<ComputeOp>, op: ComputeOp)
    ensures After(x, q + [op]) == Effect(After(x, q), op)
    ensures StageAfter(x, stage, q + [op]) == if op.Stage? then After(x, q) else StageAfter(x, stage, q)
    decreases |q|
  {
    if q != [] {
      assert (q + [op])[1..] == q[1..] + [op];
      AfterSnoc(Effect(x, q[0]), if q[0].Stage? then x else stage, q[1..], op);
    }
  }

  lemma {:induction false} StageUntouched(x: Vec, stage: Vec, q: seq<ComputeOp>)
    requires forall j :: 0 <= j < |q| ==> !q[j].Stage?
    ensures StageAfter(x, stage, q) == stage
    decreases |q|
  {
    if q != [] { StageUntouched(Effect(x, q[0]), stage, q[1..]); }
  }

  lemma {:induction false} AfterKeepsLength(x: Vec, q: seq<ComputeOp>, n: nat)
    requires |x| == n
    requires forall j :: 0 <= j < |q| ==>
          (q[j].Advance? ==> KeepsLength(q[j].f, n)) && (q[j].Load? ==> |q[j].want| == n)
    ensures |After(x, q)| == n
    decreases |q|
  {
    if q != [] { AfterKeepsLength(Effect(x, q[0]), q[1..], n); }
  }

  lemma {:induction false} InitInv(s: State, n: nat)
    requires Init(s, n)
    ensures Inv(s, n)
  {
  }

  // What the host does while a ticket is out: the signal stays in the queue when it grows or shifts.
  lemma {:induction false} SignalStays(s: State, t: State, shift: nat)
    requires Ordered(s) && s.evDone < s.evRecorded && shift <= 1
    requires |s.compute| <= |t.compute| + shift
    requires forall j :: shift <= j < |s.compute| ==> t.compute[j - shift] == s.compute[j]
    requires shift == 1 ==> s.compute != [] && !s.compute[0].Signal?
    ensures exists j :: 0 <= j < |t.compute| && t.compute[j].Signal?
  {
    var j :| 0 <= j < |s.compute| && s.compute[j].Signal?;
    assert t.compute[j - shift].Signal?;
  }

  lemma {:induction false} LaunchQueues(s: State, n: nat, f: Vec -> Vec, rows: nat)
    requires Inv(s, n) && Enabled(s, Launch(f, rows))
    ensures ComputeQueue(Move(s, Launch(f, rows)), n)
  {
    hide After, StageAfter;
  }

  lemma {:induction false} LaunchOrdered(s: State, n: nat, f: Vec -> Vec, rows: nat)
    requires Inv(s, n) && Enabled(s, Launch(f, rows))
    ensures Ordered(Move(s, Launch(f, rows)))
  {
    hide Contents, CopyQueue, ComputeQueue, Shapes, KeepsLength;
    if s.evDone < s.evRecorded { SignalStays(s, Move(s, Launch(f, rows)), 0); }
  }

  lemma {:induction false} LaunchInv(s: State, n: nat, f: Vec -> Vec, rows: nat)
    requires Inv(s, n) && Enabled(s, Launch(f, rows))
    ensures Inv(Move(s, Launch(f, rows)), n)
  {
    hide After, StageAfter;
    LaunchQueues(s, n, f, rows);
    LaunchOrdered(s, n, f, rows);
    hide ComputeQueue, Ordered;
    AfterSnoc(s.kda, s.stage, s.compute, Advance(f));
  }

  lemma {:induction false} DoStageInv(s: State, n: nat)
    requires Inv(s, n) && s.pc.DoStage?
    ensures Inv(HostMove(s), n)
  {
    hide After, StageAfter;
    AfterSnoc(s.kda, s.stage, s.compute, Stage(0));
  }

  lemma {:induction false} DoSignalInv(s: State, n: nat)
    requires Inv(s, n) && s.pc.DoSignal?
    ensures Inv(HostMove(s), n)
  {
    hide After, StageAfter;
    AfterSnoc(s.kda, s.stage, s.compute, Signal(s.evRecorded + 1));
    assert HostMove(s).compute[|s.compute|].Signal?;
  }

  lemma {:induction false} RestoreInv(s: State, n: nat)
    requires Inv(s, n) && s.pc.DrainToRestore? && s.ev2Done >= s.ev2Recorded
    ensures Inv(HostMove(s), n)
  {
    hide After, StageAfter;
    AfterSnoc(s.kda, s.stage, s.compute, Load(s.pc.slot, 0, s.spec.snaps[s.pc.slot].state));
  }

  lemma {:induction false} HostStepInv(s: State, n: nat)
    requires Inv(s, n) && Enabled(s, HostStep)
    ensures Inv(HostMove(s), n)
  {
    if s.pc.DoStage? {
      DoStageInv(s, n);
    } else if s.pc.DoSignal? {
      DoSignalInv(s, n);
    } else if s.pc.DrainToRestore? {
      RestoreInv(s, n);
    } else if s.pc.DrainToCapture? || s.pc.DoCommit? {
      DrainOrCommitInv(s, n);
    } else {
      EnqueueInv(s, n);
    }
  }

  lemma {:induction false} DrainOrCommitInv(s: State, n: nat)
    requires Inv(s, n) && (s.pc.DrainToCapture? || s.pc.DoCommit?) && Enabled(s, HostStep)
    ensures Inv(HostMove(s), n)
  {
    hide After, StageAfter;
  }

  lemma {:induction false} EnqueueInv(s: State, n: nat)
    requires Inv(s, n) && (s.pc.DoWait? || s.pc.DoCopy? || s.pc.DoSignal2?)
    ensures Inv(HostMove(s), n)
  {
    hide After, StageAfter;
  }

  lemma {:induction false} AdvanceOrdered(s: State, n: nat)
    requires Inv(s, n) && s.compute != [] && s.compute[0].Advance?
    ensures Ordered(ComputeMove(s))
  {
    hide Contents, CopyQueue, After, StageAfter;
    if s.evDone < s.evRecorded { SignalStays(s, ComputeMove(s), 1); }
  }

  lemma {:induction false} AdvanceInv(s: State, n: nat)
    requires Inv(s, n) && s.compute != [] && s.compute[0].Advance?
    ensures Inv(ComputeMove(s), n)
  {
    AdvanceOrdered(s, n);
    hide Ordered;
  }

  lemma {:induction false} SignalInv(s: State, n: nat)
    requires Inv(s, n) && s.compute != [] && s.compute[0].Signal?
    ensures Inv(ComputeMove(s), n)
  {
  }

  // One piece of a restore or of a staging copy changes nothing but the head of the queue.
  lemma {:induction false} PieceOrdered(s: State, n: nat)
    requires Inv(s, n) && s.compute != [] && (s.compute[0].Load? || s.compute[0].Stage?) && s.compute[0].done < n
    ensures Ordered(ComputeMove(s))
  {
    hide Contents, CopyQueue, After, StageAfter;
    var t := ComputeMove(s);
    assert t.compute[1..] == s.compute[1..];
    forall i | 1 <= i < |s.compute|
      ensures t.compute[i] == s.compute[i]
    {
      assert t.compute[1..][i - 1] == s.compute[1..][i - 1];
    }
    if s.evDone < s.evRecorded {
      var j :| 0 <= j < |s.compute| && s.compute[j].Signal?;
      assert t.compute[j].Signal?;
    }
  }

  lemma {:induction false} LoadPiece(s: State, n: nat)
    requires Inv(s, n) && s.compute != [] && s.compute[0].Load? && s.compute[0].done < n
    ensures Inv(ComputeMove(s), n)
  {
    PieceOrdered(s, n);
    hide Ordered, CopyQueue;
    assert ComputeMove(s).compute[1..] == s.compute[1..];
    assert CopyQueue(ComputeMove(s)) by { LoadKeepsCopyQueue(s, n); }
  }

  lemma {:induction false} LoadKeepsCopyQueue(s: State, n: nat)
    requires Inv(s, n) && s.compute != [] && s.compute[0].Load?
    ensures CopyQueue(ComputeMove(s))
  {
    hide Contents, ComputeQueue, Ordered, After, StageAfter;
  }

  lemma {:induction false} PopOrdered(s: State, n: nat)
    requires Inv(s, n) && s.compute != [] && (s.compute[0].Load? || s.compute[0].Stage?) && s.compute[0].done == n
    ensures Ordered(ComputeMove(s))
  {
    hide Contents, CopyQueue, After, StageAfter;
    if s.evDone < s.evRecorded { SignalStays(s, ComputeMove(s), 1); }
  }

  /** A finished restore has loaded exactly the state recorded for it. */
  lemma {:induction false} LoadFinish(s: State, n: nat)
    requires Inv(s, n) && s.compute != [] && s.compute[0].Load? && s.compute[0].done == n
    ensures s.kda == s.compute[0].want
    ensures Inv(ComputeMove(s), n)
  {
    PopOrdered(s, n);
    hide Ordered;
    assert s.kda == s.compute[0].want;
  }

  lemma {:induction false} StagePiece(s: State, n: nat)
    requires Inv(s, n) && s.compute != [] && s.compute[0].Stage? && s.compute[0].done < n
    ensures Inv(ComputeMove(s), n)
  {
    PieceOrdered(s, n);
    hide Ordered;
    assert ComputeMove(s).compute[1..] == s.compute[1..];
  }

  lemma {:induction false} StageFinish(s: State, n: nat)
    requires Inv(s, n) && s.compute != [] && s.compute[0].Stage? && s.compute[0].done == n
    ensures Inv(ComputeMove(s), n)
  {
    PopOrdered(s, n);
    hide Ordered;
    assert s.stage == s.kda;
  }

  lemma {:induction false} CopyStepInv(s: State, n: nat)
    requires Inv(s, n) && Enabled(s, CopyStep)
    ensures Inv(CopyMove(s), n)
  {
    if s.copy[0].ToHost? { ToHostInv(s, n); } else { EventInv(s, n); }
  }

  lemma {:induction false} EventInv(s: State, n: nat)
    requires Inv(s, n) && Enabled(s, CopyStep) && !s.copy[0].ToHost?
    ensures Inv(CopyMove(s), n)
  {
    hide After, StageAfter;
  }

  lemma {:induction false} ToHostInv(s: State, n: nat)
    requires Inv(s, n) && s.copy != [] && s.copy[0].ToHost?
    ensures Inv(CopyMove(s), n)
  {
    hide After, StageAfter;
    StageUntouched(s.kda, s.stage, s.compute);
    assert s.stage == s.value;
    if s.copy[0].done == n {
      assert s.host[s.target] == s.value;
    }
  }

  // ------------------------------------------------------------------ the theorems

  lemma {:induction false} ComputeStepInv(s: State, n: nat)
    requires Inv(s, n) && s.compute != []
    ensures Inv(ComputeMove(s), n)
  {
    if s.compute[0].Advance? {
      AdvanceInv(s, n);
    } else if s.compute[0].Signal? {
      SignalInv(s, n);
    } else {
      PiecesLeft(s, n);
      hide Inv, ComputeMove;
      if s.compute[0].Stage? {
        if s.compute[0].done < n { StagePiece(s, n); } else { StageFinish(s, n); }
      } else {
        if s.compute[0].done < n { LoadPiece(s, n); } else { LoadFinish(s, n); }
      }
    }
  }

  lemma {:induction false} PiecesLeft(s: State, n: nat)
    requires Inv(s, n) && s.compute != [] && (s.compute[0].Load? || s.compute[0].Stage?)
    ensures s.compute[0].done <= n
  {
    hide After, StageAfter, Contents, CopyQueue, Ordered, Shapes;
  }

  lemma {:induction false} CallInv(s: State, n: nat, a: Action)
    requires Inv(s, n) && Enabled(s, a) && (a.Capture? || a.Restore? || a.Forget?)
    ensures Inv(Move(s, a), n)
  {
    hide After, StageAfter;
  }

  lemma {:induction false} MoveInv(s: State, n: nat, a: Action)
    requires Inv(s, n) && Enabled(s, a)
    ensures Inv(Move(s, a), n)
  {
    hide Inv, ComputeMove, CopyMove, HostMove;
    match a
    case Launch(f, rows) => LaunchInv(s, n, f, rows);
    case HostStep => HostStepInv(s, n);
    case ComputeStep => ComputeStepInv(s, n);
    case CopyStep => CopyStepInv(s, n);
    case _ => CallInv(s, n, a);
  }

  // An interleaving: any sequence of moves each of which is enabled when it is taken.
  ghost predicate Legal(s: State, trace: seq<Action>)
    decreases |trace|
  {
    trace == [] || (Enabled(s, trace[0]) && Legal(Move(s, trace[0]), trace[1..]))
  }

  ghost function Run(s: State, trace: seq<Action>): State
    requires Legal(s, trace)
    decreases |trace|
  {
    if trace == [] then s else Run(Move(s, trace[0]), trace[1..])
  }

  /** One call on the sequential machine; captures go round the ring. */
  function Exec(spec: Spec, next: nat, a: Action): (Spec, nat) {
    match a
    case Launch(f, rows) => (spec.(kda := f(spec.kda), pos := spec.pos + rows), next)
    case Capture =>
      if next < |spec.snaps| then
        (spec.(snaps := spec.snaps[next := Taken(spec.pos, spec.kda)]),
         if next + 1 >= |spec.snaps| then 0 else next + 1)
      else (spec, next)
    case Restore(slot) =>
      if slot < |spec.snaps| && spec.snaps[slot].Taken?
      then (spec.(kda := spec.snaps[slot].state, pos := spec.snaps[slot].pos), next) else (spec, next)
    case Forget(slot) => (if slot < |spec.snaps| then spec.(snaps := spec.snaps[slot := Empty]) else spec, next)
    case _ => (spec, next)
  }

  /** The host's calls in the order it makes them, on the sequential machine; the streams' steps are nothing to it. */
  function ExecAll(spec: Spec, next: nat, trace: seq<Action>): (Spec, nat)
    decreases |trace|
  {
    if trace == [] then (spec, next)
    else
      var (spec', next') := Exec(spec, next, trace[0]);
      ExecAll(spec', next', trace[1..])
  }

  predicate AllLaunch(trace: seq<Action>) {
    forall i :: 0 <= i < |trace| ==> trace[i].Launch?
  }

  lemma {:induction false} ExecConcat(spec: Spec, next: nat, a: seq<Action>, b: seq<Action>)
    ensures var (spec', next') := ExecAll(spec, next, a);
      ExecAll(spec, next, a + b) == ExecAll(spec', next', b)
    decreases |a|
  {
    hide Exec;
    if a == [] {
      assert a + b == b;
    } else {
      var (spec1, next1) := Exec(spec, next, a[0]);
      ExecConcat(spec1, next1, a[1..], b);
      assert (a + b)[1..] == a[1..] + b;
    }
  }

  /** Launches advance the state one after another, each by its own kernels, and the position by their rows. */
  lemma {:induction false} LaunchesAdvance(spec: Spec, next: nat, ls: seq<Action>, states: seq<Vec>, at: seq<nat>)
    requires AllLaunch(ls) && |states| == |at| == |ls| + 1 && states[0] == spec.kda && at[0] == spec.pos
    requires forall i :: 0 <= i < |ls| ==> states[i + 1] == ls[i].f(states[i]) && at[i + 1] == at[i] + ls[i].rows
    ensures ExecAll(spec, next, ls) == (Spec(states[|ls|], at[|ls|], spec.snaps), next)
    decreases |ls|
  {
    if ls != [] {
      var (spec1, next1) := Exec(spec, next, ls[0]);
      assert ls[0].Launch?;
      LaunchesAdvance(spec1, next1, ls[1..], states[1..], at[1..]);
    }
  }

  lemma {:induction false} LaunchesKeep(spec: Spec, next: nat, ls: seq<Action>)
    requires AllLaunch(ls)
    ensures ExecAll(spec, next, ls).0.snaps == spec.snaps && ExecAll(spec, next, ls).1 == next
    decreases |ls|
  {
    if ls != [] {
      assert ls[0].Launch?;
      LaunchesKeep(Exec(spec, next, ls[0]).0, next, ls[1..]);
    }
  }

  /**
   A capture, any launches, and the restore of its slot: the state and the position of the capture are back, and
   the next capture goes into the next slot of the ring.
  */
  lemma {:induction false} RestoreUndoes(spec: Spec, next: nat, ls: seq<Action>)
    requires next < |spec.snaps| && AllLaunch(ls)
    ensures var (end, after) := ExecAll(spec, next, [Capture] + ls + [Restore(next)]);
      && end.kda == spec.kda && end.pos == spec.pos
      && end.snaps == spec.snaps[next := Taken(spec.pos, spec.kda)]
      && after == if next + 1 == |spec.snaps| then 0 else next + 1
  {
    hide ExecAll;
    ExecConcat(spec, next, [Capture] + ls, [Restore(next)]);
    ExecConcat(spec, next, [Capture], ls);
    var (mid, next1) := Exec(spec, next, Capture);
    ExecOne(spec, next, Capture);
    LaunchesKeep(mid, next1, ls);
    var (late, next2) := ExecAll(mid, next1, ls);
    ExecOne(late, next2, Restore(next));
  }

  lemma {:induction false} ExecOne(spec: Spec, next: nat, a: Action)
    ensures ExecAll(spec, next, [a]) == Exec(spec, next, a)
  {
    hide Exec;
    assert [a][1..] == [];
  }

  // What the sequential machine has reached once the host's current call is over.
  function Goal(s: State): (Spec, nat) {
    match s.pc
    case Idle => (s.spec, s.next)
    case DrainToCapture => Exec(s.spec, s.next, Capture)
    case DoStage => Exec(s.spec, s.next, Capture)
    case DrainToRestore(slot) => Exec(s.spec, s.next, Restore(slot))
    case _ => (s.spec, if s.next + 1 >= |s.host| then 0 else s.next + 1)
  }

  lemma {:induction false} GoalMoves(s: State, n: nat, a: Action)
    requires Inv(s, n) && Enabled(s, a)
    ensures Goal(Move(s, a)) == Exec(Goal(s).0, Goal(s).1, a)
  {
    hide After, StageAfter, ComputeQueue, CopyQueue, Ordered, Contents;
  }

  lemma {:induction false} RunRefines(s: State, n: nat, trace: seq<Action>)
    requires Inv(s, n) && Legal(s, trace)
    ensures Inv(Run(s, trace), n)
    ensures Goal(Run(s, trace)) == ExecAll(Goal(s).0, Goal(s).1, trace)
    decreases |trace|
  {
    hide Inv, Goal;
    if trace != [] {
      MoveInv(s, n, trace[0]);
      GoalMoves(s, n, trace[0]);
      RunRefines(Move(s, trace[0]), n, trace[1..]);
    }
  }

  /**
   Under every interleaving: when the host is between calls and the streams have run dry, the device
   holds the sequential machine's state, and every slot it believes taken holds, complete, the state
   as of that slot's capture.
  */
  lemma {:induction false} StreamsRefineSequential(s0: State, n: nat, trace: seq<Action>)
    requires Init(s0, n) && Legal(s0, trace)
    ensures var s, spec := Run(s0, trace), ExecAll(s0.spec, s0.next, trace).0;
            s.pc.Idle? ==>
              && s.spec == spec
              && (s.compute == [] ==> s.kda == spec.kda)
              && (s.copy == [] ==> |s.host| == |spec.snaps| && forall i ::
                   0 <= i < |s.host| && spec.snaps[i].Taken? ==> s.host[i] == spec.snaps[i].state)
  {
    InitInv(s0, n);
    RunRefines(s0, n, trace);
  }

  /** At no moment of any run is the staging buffer written while a host copy may still read it. */
  lemma {:induction false} StagingIsNeverOverwritten(s0: State, n: nat, trace: seq<Action>)
    requires Init(s0, n) && Legal(s0, trace)
    ensures var s := Run(s0, trace);
            s.compute != [] && s.compute[0].Stage? && s.copy != [] ==>
              s.copy[0].Wait? && !Enabled(s, CopyStep)
  {
    InitInv(s0, n);
    RunRefines(s0, n, trace);
  }

  /** A restore that completes has loaded the complete state recorded for its slot when it was asked for. */
  lemma {:induction false} RestoreLoadsRecordedState(s0: State, n: nat, trace: seq<Action>)
    requires Init(s0, n) && Legal(s0, trace)
    ensures var s := Run(s0, trace);
            s.compute != [] && s.compute[0].Load? && s.compute[0].done == n ==> s.kda == s.compute[0].want
  {
    InitInv(s0, n);
    RunRefines(s0, n, trace);
    var s := Run(s0, trace);
    if s.compute != [] && s.compute[0].Load? && s.compute[0].done == n {
      LoadFinish(s, n);
    }
  }

  // ------------------------------------------------------------------ everything gets done

  // What goes on without further calls.
  predicate Internal(a: Action) {
    a.HostStep? || a.ComputeStep? || a.CopyStep?
  }

  predicate Quiescent(s: State) {
    s.pc.Idle? && s.compute == [] && s.copy == []
  }

  /** No reachable state is stuck before all is done. */
  lemma {:induction false} SomethingIsEnabled(s: State, n: nat)
    requires Inv(s, n) && !Quiescent(s)
    ensures exists a :: Internal(a) && Enabled(s, a)
  {
    hide After, StageAfter;
    assert Internal(HostStep) && Internal(ComputeStep) && Internal(CopyStep);
    if s.compute != [] {
      assert Enabled(s, ComputeStep);
    } else if s.copy != [] {
      assert Enabled(s, CopyStep);
    } else {
      assert Enabled(s, HostStep);
    }
  }

  // Steps that an operation still takes on `n` pieces.
  function ComputeCost(op: ComputeOp, n: nat): (c: nat)
    ensures c > 0
  {
    match op
    case Stage(done) => if done < n then n - done + 1 else 1
    case Load(_, done, _) => if done < n then n - done + 1 else 1
    case _ => 1
  }

  function CopyCost(op: CopyOp, n: nat): (c: nat)
    ensures c > 0
  {
    match op
    case ToHost(_, done) => if done < n then n - done + 1 else 1
    case _ => 1
  }

  function ComputeWork(q: seq<ComputeOp>, n: nat): nat
    decreases |q|
  {
    if q == [] then 0 else ComputeCost(q[0], n) + ComputeWork(q[1..], n)
  }

  function CopyWork(q: seq<CopyOp>, n: nat): nat
    decreases |q|
  {
    if q == [] then 0 else CopyCost(q[0], n) + CopyWork(q[1..], n)
  }

  // What the host still does in its call, with what it is going to enqueue.
  function HostWork(pc: Pc, n: nat): nat {
    match pc
    case Idle => 0
    case DrainToRestore(_) => n + 2
    case DoCommit => 1
    case DoSignal2 => 3
    case DoCopy => n + 5
    case DoWait => n + 7
    case DoSignal => n + 9
    case DoStage => 2 * n + 11
    case DrainToCapture => 2 * n + 12
  }

  function Work(s: State, n: nat): nat {
    HostWork(s.pc, n) + ComputeWork(s.compute, n) + CopyWork(s.copy, n)
  }

  lemma {:induction false} ComputeWorkSnoc(q: seq<ComputeOp>, op: ComputeOp, n: nat)
    ensures ComputeWork(q + [op], n) == ComputeWork(q, n) + ComputeCost(op, n)
    decreases |q|
  {
    if q != [] {
      assert (q + [op])[1..] == q[1..] + [op];
      ComputeWorkSnoc(q[1..], op, n);
    }
  }

  lemma {:induction false} CopyWorkSnoc(q: seq<CopyOp>, op: CopyOp, n: nat)
    ensures CopyWork(q + [op], n) == CopyWork(q, n) + CopyCost(op, n)
    decreases |q|
  {
    if q != [] {
      assert (q + [op])[1..] == q[1..] + [op];
      CopyWorkSnoc(q[1..], op, n);
    }
  }

  lemma {:induction false} HostWorkShrinks(s: State, n: nat)
    requires Inv(s, n) && Enabled(s, HostStep)
    ensures Work(HostMove(s), n) < Work(s, n)
  {
    hide After, StageAfter, ComputeWork, CopyWork, CopyQueue, ComputeQueue, Ordered, Contents;
    match s.pc
    case DoStage => ComputeWorkSnoc(s.compute, Stage(0), n);
    case DoSignal => ComputeWorkSnoc(s.compute, Signal(s.evRecorded + 1), n);
    case DoWait => CopyWorkSnoc(s.copy, Wait(s.evRecorded), n);
    case DoCopy => CopyWorkSnoc(s.copy, ToHost(s.next, 0), n);
    case DoSignal2 => CopyWorkSnoc(s.copy, Signal2(s.ev2Recorded + 1), n);
    case DrainToRestore(slot) => ComputeWorkSnoc(s.compute, Load(slot, 0, s.spec.snaps[slot].state), n);
    case _ =>
  }

  lemma {:induction false} StreamWorkShrinks(s: State, n: nat)
    requires Inv(s, n)
    ensures s.compute != [] ==> Work(ComputeMove(s), n) < Work(s, n)
    ensures s.copy != [] ==> Work(CopyMove(s), n) < Work(s, n)
  {
    hide After, StageAfter, CopyQueue, ComputeQueue, Ordered, Contents;
    if s.compute != [] { assert forall op :: ([op] + s.compute[1..])[1..] == s.compute[1..]; }
    if s.copy != [] {
      if s.copy[0].ToHost? { ToHostFits(s, n); }
      assert forall op :: ([op] + s.copy[1..])[1..] == s.copy[1..];
    }
  }

  lemma {:induction false} ToHostFits(s: State, n: nat)
    requires Inv(s, n) && s.copy != [] && s.copy[0].ToHost?
    ensures s.copy[0].slot < |s.host| && |s.host[s.copy[0].slot]| == n
  {
    hide After, StageAfter, ComputeQueue, Ordered, Contents;
  }

  /** Every move that is not a call leaves less to do. */
  lemma {:induction false} WorkShrinks(s: State, n: nat, a: Action)
    requires Inv(s, n) && Internal(a) && Enabled(s, a)
    ensures Work(Move(s, a), n) < Work(s, n)
  {
    hide Inv, Work, HostMove, ComputeMove, CopyMove;
    if a.HostStep? { HostWorkShrinks(s, n); } else { StreamWorkShrinks(s, n); }
  }

  ghost predicate AllInternal(trace: seq<Action>) {
    forall i :: 0 <= i < |trace| ==> Internal(trace[i])
  }

  lemma {:induction false} InternalRun(s: State, n: nat, trace: seq<Action>)
    requires Inv(s, n) && Legal(s, trace) && AllInternal(trace)
    ensures Inv(Run(s, trace), n) && Goal(Run(s, trace)) == Goal(s)
    ensures |trace| + Work(Run(s, trace), n) <= Work(s, n)
    decreases |trace|
  {
    hide Inv, Goal, Work, Move;
    if trace != [] {
      assert Internal(trace[0]);
      MoveInv(s, n, trace[0]);
      GoalMoves(s, n, trace[0]);
      WorkShrinks(s, n, trace[0]);
      InternalRun(Move(s, trace[0]), n, trace[1..]);
    }
  }

  /**
   After any run: however host and streams go on without further calls, they stop after a bounded number of
   moves, and when they stop nothing is left in a queue, and the device and every slot that is taken hold what
   the sequential machine says.
  */
  lemma {:induction false} QueuesDrain(s0: State, n: nat, trace: seq<Action>, more: seq<Action>)
    requires Init(s0, n) && Legal(s0, trace) && Legal(Run(s0, trace), more) && AllInternal(more)
    ensures |more| <= Work(Run(s0, trace), n)
    ensures var s := Run(Run(s0, trace), more);
      var (spec, next) := ExecAll(s0.spec, s0.next, trace);
      (forall a :: Internal(a) ==> !Enabled(s, a)) ==>
        && Quiescent(s) && s.spec == spec && s.next == next && s.kda == spec.kda && |s.host| == |spec.snaps|
        && forall i :: 0 <= i < |s.host| && spec.snaps[i].Taken? ==> s.host[i] == spec.snaps[i].state
  {
    hide Enabled, Work, Legal, Run, Move, CopyQueue, ComputeQueue, Ordered;
    InitInv(s0, n);
    RunRefines(s0, n, trace);
    InternalRun(Run(s0, trace), n, more);
    var s := Run(Run(s0, trace), more);
    if forall a :: Internal(a) ==> !Enabled(s, a) {
      if !Quiescent(s) { SomethingIsEnabled(s, n); }
    }
  }
}

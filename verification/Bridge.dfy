/** Bridge (internal/tunnel/tunnel.go): two copying goroutines, one per direction,
    and a watcher that expires both sockets once the bridge is cancelled. The
    steps of the three interleave freely with the network. */
module Bridge {
  import opened Prelude
  import opened Wire

  /** io.Copy in one direction: what it has read, what it holds between a read
      and the write, and what it has written. */
  datatype Copy = Copy(read: seq<byte>, held: seq<byte>, written: seq<byte>, running: bool)

  datatype Direction = In | Out

  /** expired counts the sockets whose deadline the watcher has set, the client's
      first; counts is set once both copies are done; closed counts the sockets
      the deferred calls have closed, the upstream's first. */
  datatype State = State(
    inward: Copy, outward: Copy, cancelled: bool, expired: nat, counts: Option<(nat, nat)>, closed: nat)

  const IDLE := Copy([], [], [], true)
  const START := State(IDLE, IDLE, false, 0, None, 0)

  function Of(s: State, d: Direction): Copy {
    if d.In? then s.inward else s.outward
  }

  function With(s: State, d: Direction, c: Copy): State {
    if d.In? then s.(inward := c) else s.(outward := c)
  }

  /** In reads from the client and writes to the upstream. */
  predicate SourceExpired(s: State, d: Direction) {
    if d.In? then s.expired >= 1 else s.expired >= 2
  }

  predicate SinkExpired(s: State, d: Direction) {
    if d.In? then s.expired >= 2 else s.expired >= 1
  }

  datatype Step =
    | Cancel
    | Watch
    | Read(d: Direction, bytes: seq<byte>)
    | Write(d: Direction)
    | ReadEnds(d: Direction)
    | WriteFails(d: Direction, n: nat)
    | Wait
    | Close

  /** A past deadline fails every later read of the source and write of the sink;
      either may also fail for reasons of its own. */
  predicate Enabled(s: State, step: Step) {
    match step
    case Cancel => !s.cancelled
    case Watch => s.cancelled && s.expired < 2 && s.counts.None?
    case Read(d, bytes) => Of(s, d).running && Of(s, d).held == [] && !SourceExpired(s, d) && bytes != []
    case Write(d) => Of(s, d).running && Of(s, d).held != [] && !SinkExpired(s, d)
    case ReadEnds(d) => Of(s, d).running && Of(s, d).held == []
    case WriteFails(d, n) => Of(s, d).running && n < |Of(s, d).held|
    case Wait => !s.inward.running && !s.outward.running && s.counts.None?
    case Close => s.counts.Some? && s.closed < 2
  }

  function Do(s: State, step: Step): State
    requires Enabled(s, step)
  {
    match step
    case Cancel => s.(cancelled := true)
    case Watch => s.(expired := s.expired + 1)
    case Read(d, bytes) =>
      var c := Of(s, d);
      With(s, d, c.(read := c.read + bytes, held := bytes))
    case Write(d) =>
      var c := Of(s, d);
      With(s, d, c.(held := [], written := c.written + c.held))
    case ReadEnds(d) => With(s, d, Of(s, d).(running := false)).(cancelled := true)
    case WriteFails(d, n) =>
      var c := Of(s, d);
      With(s, d, c.(written := c.written + c.held[..n], running := false)).(cancelled := true)
    case Wait => s.(counts := Some((|s.inward.written|, |s.outward.written|)), cancelled := true)
    case Close => s.(closed := s.closed + 1)
  }

  ghost predicate IsRun(run: seq<State>, steps: seq<Step>) {
    && |run| == |steps| + 1
    && run[0] == START
    && forall i :: 0 <= i < |steps| ==> Enabled(run[i], steps[i]) && run[i + 1] == Do(run[i], steps[i])
  }

  // ----- what every step keeps ------------------------------------------------------------

  predicate CopyOk(c: Copy) {
    && c.written <= c.read
    && (c.running ==> c.written + c.held == c.read)
  }

  predicate Inv(s: State) {
    && CopyOk(s.inward) && CopyOk(s.outward)
    && s.expired <= 2 && s.closed <= 2
    && (s.closed > 0 ==> s.counts.Some?)
    && (s.expired > 0 || !s.inward.running || !s.outward.running ==> s.cancelled)
    && (s.counts.Some? ==>
          && !s.inward.running && !s.outward.running
          && s.counts.value == (|s.inward.written|, |s.outward.written|))
  }

  lemma StepKeepsInv(s: State, step: Step)
    requires Inv(s) && Enabled(s, step)
    ensures Inv(Do(s, step))
  {
    match step
    case WriteFails(d, n) =>
      var c := Of(s, d);
      assert c.read == c.written + c.held[..n] + c.held[n..];
    case Read(d, bytes) =>
      var c := Of(s, d);
      assert c.written == c.read;
    case _ =>
  }

  lemma {:induction false} RunKeepsInv(run: seq<State>, steps: seq<Step>, i: nat)
    requires IsRun(run, steps) && i < |run|
    ensures Inv(run[i])
  {
    if i > 0 {
      RunKeepsInv(run, steps, i - 1);
      StepKeepsInv(run[i - 1], steps[i - 1]);
    }
  }

  /** In every interleaving the bytes written to either socket are a prefix of
      those read from the other, and the counts returned are their lengths. */
  lemma WhatIsWrittenWasRead(run: seq<State>, steps: seq<Step>, i: nat)
    requires IsRun(run, steps) && i < |run|
    ensures run[i].inward.written <= run[i].inward.read && run[i].outward.written <= run[i].outward.read
    ensures run[i].counts.Some? ==> run[i].counts.value == (|run[i].inward.written|, |run[i].outward.written|)
  {
    RunKeepsInv(run, steps, i);
  }

  // ----- teardown -----------------------------------------------------------------------------

  predicate MovesData(step: Step) {
    step.Read? || step.Write?
  }

  /** What is left to tear down. */
  function Remaining(s: State): nat
    requires s.expired <= 2 && s.closed <= 2
  {
    (2 - s.closed) + (if s.cancelled then 0 else 1) + (2 - s.expired) + (if s.inward.running then 1 else 0)
    + (if s.outward.running then 1 else 0) + (if s.counts.None? then 1 else 0)
  }

  /** Every step but a data move takes something down; a data move takes nothing
      down, and none is possible with both deadlines set. */
  lemma StepsTearDown(s: State, step: Step)
    requires Inv(s) && Enabled(s, step)
    ensures Do(s, step).expired <= 2 && Do(s, step).closed <= 2
    ensures !MovesData(step) ==> Remaining(Do(s, step)) < Remaining(s)
    ensures MovesData(step) ==> Remaining(Do(s, step)) == Remaining(s) && s.expired < 2
  {
  }

  /** Both copies have ended and both sockets are closed. */
  predicate Returned(s: State) {
    s.counts.Some? && s.closed == 2 && !s.inward.running && !s.outward.running
  }

  /** A cancelled bridge never hangs: until it has returned, one of its own steps
      is possible without the network's help. */
  lemma CancelledCanAdvance(s: State) returns (step: Step)
    requires Inv(s) && s.cancelled && !Returned(s)
    ensures Enabled(s, step) && !MovesData(step) && !step.Cancel?
  {
    if s.counts.Some? {
      step := Close;
    } else if s.expired < 2 {
      step := Watch;
    } else if s.inward.running {
      step := if s.inward.held == [] then ReadEnds(In) else WriteFails(In, 0);
    } else if s.outward.running {
      step := if s.outward.held == [] then ReadEnds(Out) else WriteFails(Out, 0);
    } else {
      step := Wait;
    }
  }

  ghost predicate Stuck(s: State) {
    forall step :: !Enabled(s, step) || MovesData(step)
  }

  /** Whatever the interleaving, once a bridge is cancelled at most seven more
      steps are not data moves; once the watcher has run there are at most five
      steps of any kind; and it stops moving only when it has returned. */
  lemma {:induction false} CancelledEnds(run: seq<State>, steps: seq<Step>, i: nat, j: nat)
    requires IsRun(run, steps) && i <= j < |run| && run[i].cancelled
    ensures Teardowns(steps[i..j]) <= 7
    ensures run[i].expired == 2 ==> j - i <= 5
    ensures Stuck(run[j]) ==> Returned(run[j])
  {
    RunKeepsInv(run, steps, i);
    RunKeepsInv(run, steps, j);
    CancelledStays(run, steps, i, j);
    Spent(run, steps, i, j);
    if run[i].expired == 2 {
      ExpiredOnlyTearsDown(run, steps, i, j);
    }
    if !Returned(run[j]) {
      var step := CancelledCanAdvance(run[j]);
      assert !Stuck(run[j]);
    }
  }

  lemma InvBounds(s: State)
    requires Inv(s)
    ensures s.expired <= 2 && s.closed <= 2
  {
  }

  function Teardowns(steps: seq<Step>): nat {
    if steps == [] then 0
    else Teardowns(steps[..|steps| - 1]) + if MovesData(steps[|steps| - 1]) then 0 else 1
  }

  lemma {:induction false} CancelledStays(run: seq<State>, steps: seq<Step>, i: nat, j: nat)
    requires IsRun(run, steps) && i <= j < |run| && run[i].cancelled
    ensures run[j].cancelled
  {
    if i < j {
      CancelledStays(run, steps, i, j - 1);
      assert run[j] == Do(run[j - 1], steps[j - 1]);
    }
  }

  lemma {:induction false} Spent(run: seq<State>, steps: seq<Step>, i: nat, j: nat)
    requires IsRun(run, steps) && i <= j < |run|
    ensures run[i].expired <= 2 && run[j].expired <= 2 && run[i].closed <= 2 && run[j].closed <= 2
    ensures Remaining(run[j]) + Teardowns(steps[i..j]) <= Remaining(run[i])
  {
    hide Do, Enabled, Inv;
    RunKeepsInv(run, steps, i);
    RunKeepsInv(run, steps, j);
    InvBounds(run[i]);
    InvBounds(run[j]);
    if i < j {
      Spent(run, steps, i, j - 1);
      RunKeepsInv(run, steps, j - 1);
      StepsTearDown(run[j - 1], steps[j - 1]);
      assert steps[i..j][..j - i - 1] == steps[i..j - 1];
    }
  }

  lemma {:induction false} ExpiredOnlyTearsDown(run: seq<State>, steps: seq<Step>, i: nat, j: nat)
    requires IsRun(run, steps) && i <= j < |run| && run[i].expired == 2
    ensures run[j].expired == 2 && Teardowns(steps[i..j]) == j - i
  {
    if i < j {
      ExpiredOnlyTearsDown(run, steps, i, j - 1);
      RunKeepsInv(run, steps, j - 1);
      StepsTearDown(run[j - 1], steps[j - 1]);
      assert steps[i..j][..j - i - 1] == steps[i..j - 1];
    }
  }

  // ----- delivery ------------------------------------------------------------------------------

  predicate Failed(steps: seq<Step>, d: Direction) {
    exists k :: 0 <= k < |steps| && steps[k].WriteFails? && steps[k].d == d
  }

  /** A direction has lost bytes, or has none to lose but those it holds. */
  predicate LossOk(c: Copy, failed: bool) {
    if failed then !c.running && |c.written| < |c.read| else (!c.running ==> c.written == c.read)
  }

  lemma StepKeepsLoss(s: State, step: Step, d: Direction, failed: bool)
    requires Inv(s) && Enabled(s, step) && LossOk(Of(s, d), failed)
    ensures LossOk(Of(Do(s, step), d), failed || (step.WriteFails? && step.d == d))
  {
  }

  lemma {:induction false} RunKeepsLoss(run: seq<State>, steps: seq<Step>, d: Direction, i: nat)
    requires IsRun(run, steps) && i <= |steps|
    ensures LossOk(Of(run[i], d), Failed(steps[..i], d))
  {
    if i > 0 {
      RunKeepsLoss(run, steps, d, i - 1);
      RunKeepsInv(run, steps, i - 1);
      StepKeepsLoss(run[i - 1], steps[i - 1], d, Failed(steps[..i - 1], d));
      FailedSnoc(steps, i, d);
    }
  }

  lemma FailedSnoc(steps: seq<Step>, i: nat, d: Direction)
    requires 0 < i <= |steps|
    ensures Failed(steps[..i], d) <==> Failed(steps[..i - 1], d) || (steps[i - 1].WriteFails? && steps[i - 1].d == d)
  {
    assert steps[..i] == steps[..i - 1] + [steps[i - 1]];
  }

  /** A returned bridge has delivered every byte it read in a direction if and only
      if no write of that direction failed. */
  lemma DeliversExactly(run: seq<State>, steps: seq<Step>, d: Direction)
    requires IsRun(run, steps) && Returned(run[|run| - 1])
    ensures Of(run[|run| - 1], d).written == Of(run[|run| - 1], d).read <==> !Failed(steps, d)
  {
    RunKeepsLoss(run, steps, d, |steps|);
    assert steps[..|steps|] == steps;
  }

  /** The first direction to end cuts the other: bytes read from the upstream may
      never reach the client. */
  lemma ADirectionCanBeCut(bytes: seq<byte>) returns (run: seq<State>, steps: seq<Step>)
    requires bytes != []
    ensures IsRun(run, steps) && Returned(run[|run| - 1])
    ensures run[|run| - 1].outward.read == bytes && run[|run| - 1].outward.written == []
  {
    steps := [Read(Out, bytes), ReadEnds(In), Watch, Watch, WriteFails(Out, 0), Wait, Close, Close];
    var s1 := Do(START, steps[0]);
    var s2 := Do(s1, steps[1]);
    var s3 := Do(s2, steps[2]);
    var s4 := Do(s3, steps[3]);
    var s5 := Do(s4, steps[4]);
    var s6 := Do(s5, steps[5]);
    var s7 := Do(s6, steps[6]);
    run := [START, s1, s2, s3, s4, s5, s6, s7, Do(s7, steps[7])];
  }
}

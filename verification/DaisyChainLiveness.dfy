/** The two threads of a daisy-chain copy never keep each other waiting. */
module DaisyChainLiveness {
  import opened Sequences
  import opened Wrappers
  import opened DaisyChain

  datatype Thread = Downloader | Uploader

  function By(step: Step): Thread {
    if step.DRequest? || step.DWrite? || step.DSpace? || step.DAppend? || step.DFinish? || step.DTest? || step.DFail?
    then Downloader else Uploader
  }

  /** Every write has at least one byte: a service that only ever sent empty pieces would send nothing. */
  predicate Productive(step: Step) { step.DWrite? ==> step.n > 0 }

  /** The upload waits for data, or for the old download thread to die. */
  predicate Waits(c: Chain) { c.upload.Reading? || c.upload.Draining? }

  /** Steps the download thread has left. */
  function StepsLeft(cf: Config, d: Download): nat {
    if d.Dead? || d.at > |cf.source| then 0 else
      8 * (|cf.source| - d.at) +
      match d
      case Between(at) => if at == |cf.source| then 7 else 4
      case Sending(at, end, _) => if at == end then 6 else 3
      case Space(_, _, _, n) => if n == 0 then 8 else 2
      case Append(_, _, _, n) => if n == 0 then 7 else 1
      case Tested(_) => 5
  }

  /** The download thread finds no space. */
  predicate Blocked(cf: Config, c: Chain) { c.download.Space? && c.bytesBuffered >= cf.maxBuffer }

  /** Steps of a restart before the download thread has space again, or before it is seen dead. */
  function TurnsLeft(cf: Config, c: Chain): nat {
    if !c.upload.Draining? then 0
    else if Blocked(cf, c) then if c.upload.alive then 1 else 2
    else if c.download.Dead? && c.upload.alive then 1
    else 0
  }

  /** How far the end of the wait is. */
  function Distance(cf: Config, c: Chain): nat { 3 * StepsLeft(cf, c.download) + TurnsLeft(cf, c) }

  /** The same wait goes on. */
  predicate SameWait(u: Upload, u': Upload) { u' == u || (u.Draining? && u'.Draining?) }

  /** The thread whose next step brings the end of the wait nearer. */
  function Helpful(cf: Config, c: Chain): Thread {
    if c.upload.Reading? then (if c.buffer != [] || c.failed then Uploader else Downloader)
    else if c.download.Dead? || Blocked(cf, c) then Uploader
    else Downloader
  }

  lemma DownloadNearer(cf: Config, c: Chain, step: Step)
    requires ValidConfig(cf) && Inv(cf, c) && Enabled(cf, c, step) && Productive(step) && By(step) == Downloader
    requires !(step.DSpace? && Blocked(cf, c))
    ensures StepsLeft(cf, Next(cf, c, step).download) < StepsLeft(cf, c.download)
  {
    if step.DAppend? { assert DownloadOk(cf, c.download); }
  }

  /** While the wait lasts, every step of the helpful thread brings its end nearer; a step of the other
      thread does, or leaves the distance and the helpful thread as they are. */
  lemma StepHelps(cf: Config, c: Chain, step: Step)
    requires ValidConfig(cf) && Inv(cf, c) && Waits(c) && Enabled(cf, c, step) && Productive(step)
    ensures
      var c' := Next(cf, c, step);
      SameWait(c.upload, c'.upload) ==>
        || Distance(cf, c') < Distance(cf, c)
        || (Distance(cf, c') == Distance(cf, c) && Helpful(cf, c') == Helpful(cf, c) && By(step) != Helpful(cf, c))
  {
    if By(step) == Downloader {
      if !(step.DSpace? && Blocked(cf, c)) { DownloadNearer(cf, c, step); }
    } else if step.UDrain? {
      DrainKeeps(cf, c);
    }
  }

  /** The helpful thread always can step. */
  lemma HelpfulCanStep(cf: Config, c: Chain) returns (step: Step)
    requires ValidConfig(cf) && Inv(cf, c) && Waits(c)
    ensures Enabled(cf, c, step) && StepSafe(cf, c, step) && Productive(step) && By(step) == Helpful(cf, c)
  {
    if c.upload.Reading? && (c.buffer != [] || c.failed) { return UPoll; }
    if c.upload.Draining? && c.upload.alive && (c.download.Dead? || Blocked(cf, c)) { return UDrain; }
    match c.download
    case Between(_) => step := DRequest;
    case Sending(at, end, _) => step := if at == end then DFinish else DWrite(Min(cf.transfer, end - at));
    case Append(_, _, _, _) => step := DAppend;
    case Tested(_) => step := DTest;
    case Dead => step := URestart;
    case Space(_, _, _, _) => step := if Blocked(cf, c) then UAlive else DSpace;
  }

  // ---------------------------------------------------------------------------
  // Fair schedules
  // ---------------------------------------------------------------------------

  /** Steps of both threads, in any order, during which the same wait goes on. */
  predicate WaitRun(cf: Config, c: Chain, steps: seq<Step>, c': Chain)
    decreases |steps|
  {
    if steps == [] then c' == c
    else
      && Enabled(cf, c, steps[0]) && Productive(steps[0]) && SameWait(c.upload, Next(cf, c, steps[0]).upload)
      && WaitRun(cf, Next(cf, c, steps[0]), steps[1..], c')
  }

  lemma {:induction false} RunHelps(cf: Config, c: Chain, steps: seq<Step>, c': Chain)
    requires ValidConfig(cf) && Inv(cf, c) && Waits(c) && WaitRun(cf, c, steps, c')
    ensures Inv(cf, c') && Waits(c')
    ensures
      || Distance(cf, c') < Distance(cf, c)
      || (Distance(cf, c') == Distance(cf, c) && Helpful(cf, c') == Helpful(cf, c) &&
          forall step :: step in steps ==> By(step) != Helpful(cf, c))
    decreases |steps|
  {
    if steps != [] {
      StepHelps(cf, c, steps[0]);
      StepKeeps(cf, c, steps[0]);
      RunHelps(cf, Next(cf, c, steps[0]), steps[1..], c');
      assert forall step :: step in steps ==> step == steps[0] || step in steps[1..];
    }
  }

  /** A round of a fair schedule: each thread steps at least once, unless the download thread is dead. */
  predicate Fair(steps: seq<Step>, c': Chain) {
    && (exists i :: 0 <= i < |steps| && By(steps[i]) == Uploader)
    && (c'.download.Dead? || exists i :: 0 <= i < |steps| && By(steps[i]) == Downloader)
  }

  lemma FairRoundHelps(cf: Config, c: Chain, steps: seq<Step>, c': Chain)
    requires ValidConfig(cf) && Inv(cf, c) && Waits(c) && WaitRun(cf, c, steps, c') && Fair(steps, c')
    ensures Inv(cf, c') && Waits(c') && Distance(cf, c') < Distance(cf, c)
  {
    RunHelps(cf, c, steps, c');
    var i :| 0 <= i < |steps| && By(steps[i]) == Uploader;
    assert steps[i] in steps;
    if c'.download.Dead? {
      DeadMeansUploader(cf, c');
    } else {
      var j :| 0 <= j < |steps| && By(steps[j]) == Downloader;
      assert steps[j] in steps;
    }
  }

  lemma DeadMeansUploader(cf: Config, c: Chain)
    requires Inv(cf, c) && Waits(c) && c.download.Dead?
    ensures Helpful(cf, c) == Uploader
  {
    if c.upload.Reading? && !c.failed { assert |Pending(c)| == |cf.source| - c.head; }
  }

  /** States between the rounds of a fair schedule, while the same wait goes on. */
  ghost predicate FairRounds(cf: Config, states: seq<Chain>, rounds: seq<seq<Step>>) {
    |states| == |rounds| + 1 &&
    forall i :: 0 <= i < |rounds| ==> WaitRun(cf, states[i], rounds[i], states[i + 1]) && Fair(rounds[i], states[i + 1])
  }

  /** From every reachable state in which the upload waits, every fair schedule ends the wait, within a
      number of rounds that is known from the start. */
  lemma {:induction false} FairWaitEnds(cf: Config, states: seq<Chain>, rounds: seq<seq<Step>>)
    requires FairRounds(cf, states, rounds) && Reachable(cf, states[0]) && Waits(states[0])
    ensures |rounds| <= Distance(cf, states[0])
  {
    ReachableInv(cf, states[0]);
    RoundsHelp(cf, states, rounds);
  }

  lemma {:induction false} RoundsHelp(cf: Config, states: seq<Chain>, rounds: seq<seq<Step>>)
    requires FairRounds(cf, states, rounds) && ValidConfig(cf) && Inv(cf, states[0]) && Waits(states[0])
    ensures |rounds| <= Distance(cf, states[0])
    decreases |rounds|
  {
    if rounds != [] {
      FairRoundHelps(cf, states[0], rounds[0], states[1]);
      var states', rounds' := states[1..], rounds[1..];
      assert forall i :: 0 <= i < |rounds'| ==> rounds'[i] == rounds[i + 1] && states'[i + 1] == states[i + 2];
      RoundsHelp(cf, states', rounds');
    }
  }

  predicate EndsOrNears(cf: Config, c: Chain, c': Chain) {
    SameWait(c.upload, c'.upload) ==> Distance(cf, c') < Distance(cf, c)
  }

  /** And while it lasts some thread can always end it or bring its end nearer. */
  lemma NoStall(cf: Config, c: Chain)
    requires Reachable(cf, c) && Waits(c)
    ensures exists step :: Enabled(cf, c, step) && StepSafe(cf, c, step) && EndsOrNears(cf, c, Next(cf, c, step))
  {
    ReachableInv(cf, c);
    var step := HelpfulCanStep(cf, c);
    StepHelps(cf, c, step);
  }
}

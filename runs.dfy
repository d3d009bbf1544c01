/** A chain of encodes run one after another, each started only when the
    previous one has ended, and stopped by the first failure: which jobs
    run, and which files they leave behind. */
module Runs {
  import opened Paths
  import opened Ffmpeg

  /** The encoder's answers to the jobs, in order. */
  function Outcomes(decide: Job -> Outcome, jobs: seq<Job>): (outs: seq<Outcome>)
    ensures |outs| == |jobs|
    ensures forall i :: 0 <= i < |jobs| ==> outs[i] == decide(jobs[i])
  {
    seq(|jobs|, i requires 0 <= i < |jobs| => decide(jobs[i]))
  }

  /** The index of the first failed encode, or the count when none failed. */
  function FirstFailure(outs: seq<Outcome>): (k: nat)
    ensures k <= |outs|
    ensures forall j :: 0 <= j < k ==> outs[j].Finished?
    ensures k < |outs| ==> outs[k].Failed?
  {
    if outs == [] || outs[0].Failed? then 0 else 1 + FirstFailure(outs[1..])
  }

  /** The first failure is at `n` when every earlier encode ended and the
      `n`-th, if there is one, failed. */
  lemma FirstFailureAt(outs: seq<Outcome>, n: nat)
    requires n <= |outs|
    requires forall j :: 0 <= j < n ==> outs[j].Finished?
    requires n < |outs| ==> outs[n].Failed?
    ensures FirstFailure(outs) == n
  {
  }

  /** The files the first `k` jobs leave behind. */
  function Produced(jobs: seq<Job>, outs: seq<Outcome>, k: nat): map<Path, string>
    requires k <= |jobs| && k <= |outs|
    requires forall j :: 0 <= j < k ==> outs[j].Finished?
  {
    if k == 0 then map[] else Produced(jobs, outs, k - 1)[jobs[k - 1].output := outs[k - 1].content]
  }

  lemma MergeUpdate(m: map<Path, string>, w: map<Path, string>, p: Path, c: string)
    ensures (m + w)[p := c] == m + w[p := c]
  {
  }


  /** One more finished job adds its file to what the run has written. */
  lemma ProducedStep(files0: map<Path, string>, jobs: seq<Job>, outs: seq<Outcome>, i: nat)
    requires i < |jobs| && i < |outs|
    requires forall j :: 0 <= j <= i ==> outs[j].Finished?
    ensures (files0 + Produced(jobs, outs, i))[jobs[i].output := outs[i].content]
      == files0 + Produced(jobs, outs, i + 1)
  {
    MergeUpdate(files0, Produced(jobs, outs, i), jobs[i].output, outs[i].content);
  }

  /** One more started job extends the call log by that job. */
  lemma CallsStep(calls0: seq<Job>, jobs: seq<Job>, i: nat)
    requires i < |jobs|
    ensures calls0 + jobs[..i] + [jobs[i]] == calls0 + jobs[..i + 1]
  {
    assert jobs[..i + 1] == jobs[..i] + [jobs[i]];
  }

  /** The files left by the first `k` jobs: exactly their outputs, each with
      what the encoder wrote for it. */
  lemma {:induction false} ProducedKeys(jobs: seq<Job>, outs: seq<Outcome>, k: nat)
    requires k <= |jobs| && k <= |outs|
    requires forall j :: 0 <= j < k ==> outs[j].Finished?
    ensures Produced(jobs, outs, k).Keys == set j | 0 <= j < k :: jobs[j].output
  {
    if k > 0 {
      ProducedKeys(jobs, outs, k - 1);
      assert (set j | 0 <= j < k :: jobs[j].output) == (set j | 0 <= j < k - 1 :: jobs[j].output) + {jobs[k - 1].output};
    }
  }

  lemma {:induction false} ProducedContents(jobs: seq<Job>, outs: seq<Outcome>, k: nat)
    requires k <= |jobs| && k <= |outs|
    requires forall j :: 0 <= j < k ==> outs[j].Finished?
    requires forall i, j :: 0 <= i < j < k ==> jobs[i].output != jobs[j].output
    ensures forall j :: 0 <= j < k ==>
      (jobs[j].output in Produced(jobs, outs, k) && Produced(jobs, outs, k)[jobs[j].output] == outs[j].content)
  {
    if k > 0 {
      ProducedContents(jobs, outs, k - 1);
      forall j | 0 <= j < k - 1
        ensures Produced(jobs, outs, k)[jobs[j].output] == outs[j].content
      {
        assert jobs[j].output != jobs[k - 1].output;
      }
    }
  }

  /** A run stopped by its first failed encode: the jobs it started up to
      that one, and the files of the jobs before it, which avoid any path no
      job writes. */
  lemma StoppedRun(decide: Job -> Outcome, jobs: seq<Job>, outs: seq<Outcome>, k: nat, avoid: Path,
                   calls: seq<Job>, written: map<Path, string>)
    requires outs == Outcomes(decide, jobs) && k == FirstFailure(outs) < |jobs|
    requires calls == jobs[..k + 1]
    requires written == Produced(jobs, outs, k)
    requires forall i, j :: 0 <= i < j < |jobs| ==> jobs[i].output != jobs[j].output
    requires forall i :: 0 <= i < |jobs| ==> jobs[i].output != avoid
    ensures |calls| == k + 1
    ensures forall i :: 0 <= i < k ==> decide(calls[i]).Finished?
    ensures decide(calls[k]) == outs[k]
    ensures avoid !in written
    ensures written.Keys == set i | 0 <= i < k :: calls[i].output
  {
    ProducedKeys(jobs, outs, k);
    assert written.Keys == set i | 0 <= i < k :: calls[i].output by {
      forall i | 0 <= i < k ensures calls[i] == jobs[i] { }
    }
  }

  /** A run in which no encode failed: every job ended, and each output is
      on disk with what the encoder wrote for it, even after a last file is
      added at a path no job writes. */
  lemma CompletedRun(decide: Job -> Outcome, jobs: seq<Job>, outs: seq<Outcome>, last: Path, content: string)
    requires outs == Outcomes(decide, jobs) && FirstFailure(outs) == |jobs|
    requires forall i, j :: 0 <= i < j < |jobs| ==> jobs[i].output != jobs[j].output
    requires forall i :: 0 <= i < |jobs| ==> jobs[i].output != last
    ensures var written := Produced(jobs, outs, |jobs|)[last := content];
      forall i :: 0 <= i < |jobs| ==>
        && decide(jobs[i]).Finished?
        && jobs[i].output in written
        && written[jobs[i].output] == decide(jobs[i]).content
  {
    ProducedContents(jobs, outs, |jobs|);
  }
}

/**
 * The sandbox collaborator seen from the service: the child process is an input
 * (how it behaves when started), and `subprocess.run(..., capture_output=True,
 * text=True, timeout=limit)` turns that behaviour into what the caller receives.
 */
module Sandbox {

  /**
   * What the child does once started, with its wall-clock running time in
   * seconds. The streams of `Exits` are the text as `text=True` delivers it:
   * already decoded, with "\r\n" and "\r" already turned into "\n".
   * `CannotStart(reason)` stands for any exception `subprocess.run`
   * raises other than `TimeoutExpired`, with `str(e)` as `reason`: the child not
   * starting, but also a failure after it started, such as captured output that
   * cannot be decoded as text.
   */
  datatype ChildRun =
    | Exits(stdout: string, stderr: string, returnCode: int, elapsed: real)
    | NeverExits
    | CannotStart(reason: string)

  /**
   * What `subprocess.run` gives back: the captured streams and exit status, a
   * `TimeoutExpired`, or any other exception (its `str(e)` kept as `reason`).
   */
  datatype RunOutcome =
    | Completed(stdout: string, stderr: string, returnCode: int)
    | TimedOut
    | Failed(reason: string)

  /** Wait at most `limit` seconds for the child. */
  function Run(limit: nat, child: ChildRun): (o: RunOutcome)
    ensures o.TimedOut? <==> child.NeverExits? || (child.Exits? && child.elapsed > limit as real)
    ensures o.Completed? ==> child.Exits? && o == Completed(child.stdout, child.stderr, child.returnCode)
    ensures o.Failed? ==> child == CannotStart(o.reason)
  {
    match child
    case Exits(out, err, rc, elapsed) => if elapsed > limit as real then TimedOut else Completed(out, err, rc)
    case NeverExits => TimedOut
    case CannotStart(reason) => Failed(reason)
  }

  /** A child that finishes within a limit finishes, with the same output, within any larger limit. */
  lemma RunMonotone(limit: nat, larger: nat, child: ChildRun)
    requires limit <= larger && Run(limit, child).Completed?
    ensures Run(larger, child) == Run(limit, child)
  {
  }
}

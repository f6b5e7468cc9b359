/** A job as the scheduler sees it, for either protocol. */
module Jobs {
  import opened Base
  import opened Scan

  datatype Job = Job(work: Work, id: string, en2: string, ntime: string, generation: nat, epoch: nat,
                     networkTarget: Hash, sv2: bool, channel: u32, wireJob: u32, version: u32, time32: u32)

  const BLANK := Job(Work(Zeros(80), Zeros(32)), "", "", "", 0, 0, Zeros(32), false, 0, 0, 0, 0)

  function DecimalText(n: nat): string {
    (if n < 10 then "" else DecimalText(n / 10)) + ["0123456789"[n % 10]]
  }
}

/** The counter of a tqdm progress bar, which the download and the export flow move. */
module Progress {

  /** `n` is what `pbar.n` reads; a fresh bar starts at 0. */
  class ProgressBar {
    var n: int

    constructor ()
      ensures n == 0
    {
      n := 0;
    }

    /** `pbar.update(k)`: the counter moves by `k`. */
    method Update(k: int)
      modifies this
      ensures n == old(n) + k
    {
      n := n + k;
    }
  }
}

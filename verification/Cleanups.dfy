/** What preparing, rolling back and releasing a host leave behind, and the reverse walk over the
    acquired cleanups that a rollback (src/aurora_kernel/host.py) and a release
    (src/aurora_kernel/lifecycle.py) share. */
module Cleanups {
  datatype Event =
    | Acquired(cleanup: nat)
    | Constructed(moduleId: string)
    | Closed(moduleId: string)
    | ShutDown(hook: nat)
    | Released(cleanup: nat)

  /** The cleanups from the last acquired down to the n-th. */
  function Releases(total: nat, n: nat): seq<Event>
    requires n <= total
    decreases total - n
  {
    if n == total then [] else Releases(total, n + 1) + [Released(n)]
  }

  lemma {:induction false} ReleasesAt(total: nat, n: nat, i: nat)
    requires n <= i < total
    ensures |Releases(total, n)| == total - n && Releases(total, n)[total - 1 - i] == Released(i)
    decreases total - n
  {
    if n + 1 < total {
      ReleasesAt(total, n + 1, if i > n then i else n + 1);
    }
  }

  lemma {:induction false} ReleasedOnce(total: nat, n: nat, i: nat)
    requires n <= total
    ensures multiset(Releases(total, n))[Released(i)] == if n <= i < total then 1 else 0
    decreases total - n
  {
    if n < total {
      ReleasedOnce(total, n + 1, i);
    }
  }
}

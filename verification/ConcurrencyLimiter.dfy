/**
 The limiter object: each atomic block of LimiterSpec as a method on its fields, and the synchronous
 calls as the compositions the source writes, for a thread that runs alone.
 */
module ConcurrencyLimiting {
  import opened Common
  import opened LimiterSpec

  class ConcurrencyLimiter {
    const maxConcurrent: nat
    var asyncSemaphore: nat
    var syncSemaphore: nat
    var activeCount: int
    var totalAcquisitions: nat
    var totalReleases: nat
    var totalTimeouts: nat
    var maxConcurrentObserved: int
    var currentActive: int

    function View(): Shared
      reads this
    {
      Shared(maxConcurrent, asyncSemaphore, syncSemaphore, activeCount,
             Stats(totalAcquisitions, totalReleases, totalTimeouts, maxConcurrentObserved, currentActive))
    }

    constructor (maxConcurrent: nat)
      ensures View() == Fresh(maxConcurrent)
    {
      this.maxConcurrent := maxConcurrent;
      asyncSemaphore, syncSemaphore, activeCount := maxConcurrent, maxConcurrent, 0;
      totalAcquisitions, totalReleases, totalTimeouts, maxConcurrentObserved, currentActive := 0, 0, 0, 0, 0;
    }

    /** A semaphore's acquire that does not have to wait. */
    method TryPermit(path: Path) returns (acquired: bool)
      modifies this`asyncSemaphore, this`syncSemaphore
      ensures acquired == (Permits(old(View()), path) > 0)
      ensures View() == if acquired then TakePermit(old(View()), path) else old(View())
    {
      match path
      case Async =>
        acquired := asyncSemaphore > 0;
        if acquired {
          asyncSemaphore := asyncSemaphore - 1;
        }
      case Sync =>
        acquired := syncSemaphore > 0;
        if acquired {
          syncSemaphore := syncSemaphore - 1;
        }
    }

    method ReturnPermit(path: Path)
      modifies this`asyncSemaphore, this`syncSemaphore
      ensures View() == GivePermit(old(View()), path)
    {
      match path
      case Async => asyncSemaphore := asyncSemaphore + 1;
      case Sync => syncSemaphore := syncSemaphore + 1;
    }

    /** The block under the statistics lock after an acquire. */
    method RecordAcquired()
      modifies this`activeCount, this`totalAcquisitions, this`maxConcurrentObserved, this`currentActive
      ensures View() == CountAcquired(old(View()))
    {
      activeCount := activeCount + 1;
      totalAcquisitions := totalAcquisitions + 1;
      maxConcurrentObserved := Max(maxConcurrentObserved, activeCount);
      currentActive := activeCount;
    }

    /** The block under the statistics lock after a release. */
    method RecordReleased()
      modifies this`activeCount, this`totalReleases, this`currentActive
      ensures View() == CountReleased(old(View()))
    {
      activeCount := activeCount - 1;
      totalReleases := totalReleases + 1;
      currentActive := activeCount;
    }

    method RecordTimeout()
      modifies this`totalTimeouts
      ensures View() == CountTimeout(old(View()))
    {
      totalTimeouts := totalTimeouts + 1;
    }

    /** `acquire_sync`, with no other thread to release a permit: it succeeds exactly when one is free. */
    method AcquireSync() returns (acquired: bool)
      modifies this
      ensures acquired == (old(View()).syncPermits > 0)
      ensures View() == if acquired then CountAcquired(TakePermit(old(View()), Sync)) else CountTimeout(old(View()))
    {
      acquired := TryPermit(Sync);
      if !acquired {
        RecordTimeout();
        return;
      }
      RecordAcquired();
    }

    method ReleaseSync()
      modifies this
      ensures View() == CountReleased(GivePermit(old(View()), Sync))
    {
      ReturnPermit(Sync);
      RecordReleased();
    }

    /**
     `acquire_sync_context` around a body that leaves the limiter alone, whether it returns or raises:
     permits and the active count are as before, and exactly one acquisition and one release, or one
     timeout, are on the books.
     */
    method AcquireSyncContext(bodyRaises: bool) returns (entered: bool, raised: bool)
      modifies this
      ensures entered == (old(View()).syncPermits > 0)
      ensures raised == (!entered || bodyRaises)
      ensures syncSemaphore == old(syncSemaphore) && asyncSemaphore == old(asyncSemaphore) &&
        activeCount == old(activeCount)
      ensures totalAcquisitions == old(totalAcquisitions) + (if entered then 1 else 0)
      ensures totalReleases == old(totalReleases) + (if entered then 1 else 0)
      ensures totalTimeouts == old(totalTimeouts) + (if entered then 0 else 1)
      ensures maxConcurrentObserved == if entered then Max(old(maxConcurrentObserved), old(activeCount) + 1)
        else old(maxConcurrentObserved)
    {
      entered := AcquireSync();
      if !entered {
        return false, true;
      }
      raised := bodyRaises;
      ReleaseSync();
    }

    method ResetStatistics()
      modifies this
      ensures View() == old(View()).(stats := NO_STATS)
    {
      totalAcquisitions, totalReleases, totalTimeouts, maxConcurrentObserved, currentActive := 0, 0, 0, 0, 0;
    }

    /** What `get_stats` reports, wait times apart. */
    method GetStats()
      returns (inUse: int, available: int, acquisitions: nat, releases: nat, timeouts: nat, maxObserved: int)
      ensures Stats(acquisitions, releases, timeouts, maxObserved, inUse) == View().stats
      ensures available == ReportedPermits(View())
    {
      inUse, available := currentActive, maxConcurrent - currentActive;
      acquisitions, releases, timeouts, maxObserved := totalAcquisitions, totalReleases, totalTimeouts,
        maxConcurrentObserved;
    }

    /** The property `available_permits`. */
    method GetAvailablePermits() returns (available: int)
      ensures available == AvailablePermits(View())
    {
      available := maxConcurrent - activeCount;
    }
  }
}

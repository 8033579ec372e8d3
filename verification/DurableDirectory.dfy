/**
 The durable primitive under every journal: a private directory whose files are
 only ever created, each by one exclusive hard link followed by a directory sync.

 `durable` is the content that is guaranteed to survive a power loss. `pending`
 holds one content per link made since the last successful sync, oldest first.
 A power loss keeps one of those contents: links reach the disk in order.
 */
module DurableDirectory {

  /** How one exclusive write ended: nothing linked, linked but the directory
      sync failed (an error is reported), or linked and synced. */
  datatype WriteOutcome = NotLinked | LinkedUnsynced | Durable

  datatype Dir<T> = Dir(durable: T, pending: seq<T>)
  {
    /** Every content the directory may have after a power loss, oldest first. */
    function Snapshots(): (s: seq<T>)
    {
      [durable] + pending
    }

    /** What the running process reads. */
    function Live(): (t: T)
    {
      if pending == [] then durable else pending[|pending| - 1]
    }

    /** One exclusive write turning the live content into `after`. */
    function Write(after: T, w: WriteOutcome): (d: Dir<T>)
    {
      match w
      case NotLinked => this
      case LinkedUnsynced => Dir(durable, pending + [after])
      case Durable => Dir(after, [])
    }

    /** A power loss that keeps the k-th content. */
    function PowerLoss(k: nat): (d: Dir<T>)
    {
      if k < |Snapshots()| then Dir(Snapshots()[k], []) else this
    }
  }

  /** The live content is the last one, the durable content the first. */
  lemma Ends<T>(d: Dir<T>)
    ensures d.Snapshots()[|d.Snapshots()| - 1] == d.Live() && d.Snapshots()[0] == d.durable
  {
  }

  /** A write adds at most its own content. */
  lemma WriteContents<T(!new)>(d: Dir<T>, after: T, w: WriteOutcome)
    ensures w == LinkedUnsynced ==> d.Write(after, w).Snapshots() == d.Snapshots() + [after]
    ensures forall x :: x in d.Write(after, w).Snapshots() ==> x in d.Snapshots() || x == after
    ensures d.Write(after, w).Live() == if w == NotLinked then d.Live() else after
  {
  }

  /** A power loss leaves one of the contents, and nothing unsynced. */
  lemma PowerLossContents<T>(d: Dir<T>, k: nat)
    ensures k < |d.Snapshots()| ==> d.PowerLoss(k).Snapshots() == [d.Snapshots()[k]]
    ensures k >= |d.Snapshots()| ==> d.PowerLoss(k) == d
  {
  }
}

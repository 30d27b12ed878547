/**
 * The part of the .NET host the generator touches through System.IO.File and
 * System.Threading.Thread: a set of existing files with their text, the
 * outcomes File.Delete will have (a file still held by an exited benchmark
 * process cannot be deleted yet), and a log of the delete and sleep calls made.
 */
module Files {

  type Path = string

  /** What one call of File.Delete does: removes the file, or throws because the file is held. */
  datatype DeleteOutcome = Deleted | Locked

  /** A host call with an effect outside the file contents: File.Delete, or Thread.Sleep(1000 ms). */
  datatype Call = DeleteCall(path: Path) | SleepCall

  /** A snapshot of the file system as the generator observes it. */
  datatype Disk = Disk(
    files: map<Path, string>,        // existing files and their contents
    outcomes: seq<DeleteOutcome>,    // outcomes of the coming File.Delete calls; once used up, deletes succeed
    log: seq<Call>)                  // every File.Delete and Thread.Sleep call made, in order

  /** The outcome of the `k`-th coming File.Delete call, counting from 0. */
  function OutcomeAt(outcomes: seq<DeleteOutcome>, k: nat): DeleteOutcome {
    if k < |outcomes| then outcomes[k] else Deleted
  }

  /**
   * The scripted outcomes left after `n` File.Delete calls. The ensures
   * unfold the definition for the DeleteIfExists loop proof.
   */
  function Drop(outcomes: seq<DeleteOutcome>, n: nat): (r: seq<DeleteOutcome>)
    ensures n <= |outcomes| ==> r == outcomes[n..]
    ensures n >= |outcomes| ==> r == []
  {
    if n <= |outcomes| then outcomes[n..] else []
  }

  /**
   * After `n` File.Delete calls the next one has the `n`th scripted outcome,
   * and it consumes one more.
   */
  lemma DropStep(outcomes: seq<DeleteOutcome>, n: nat)
    ensures OutcomeAt(Drop(outcomes, n), 0) == OutcomeAt(outcomes, n)
    ensures Drop(Drop(outcomes, n), 1) == Drop(outcomes, n + 1)
  {
    if n < |outcomes| {
      assert outcomes[n..][1..] == outcomes[n + 1..];
    }
  }

  class FileSystem {
    var files: map<Path, string>
    var outcomes: seq<DeleteOutcome>
    var log: seq<Call>

    function State(): Disk
      reads this
    {
      Disk(files, outcomes, log)
    }

    constructor (d: Disk)
      ensures State() == d
    {
      files, outcomes, log := d.files, d.outcomes, d.log;
    }

    /** File.Exists */
    method Exists(path: Path) returns (b: bool)
      ensures b <==> path in files
    {
      b := path in files;
    }

    /** File.Delete: consumes one scripted outcome; `deleted` is false when the call throws. */
    method Delete(path: Path) returns (deleted: bool)
      modifies this
      ensures deleted <==> OutcomeAt(old(outcomes), 0) == Deleted
      ensures files == if deleted then old(files) - {path} else old(files)
      ensures outcomes == Drop(old(outcomes), 1)
      ensures log == old(log) + [DeleteCall(path)]
    {
      deleted := OutcomeAt(outcomes, 0) == Deleted;
      if deleted {
        files := files - {path};
      }
      outcomes := Drop(outcomes, 1);
      log := log + [DeleteCall(path)];
    }

    /** Thread.Sleep(TimeSpan.FromMilliseconds(1000)), logged rather than timed. */
    method Sleep()
      modifies this
      ensures State() == old(State()).(log := old(log) + [SleepCall])
    {
      log := log + [SleepCall];
    }

    /** File.WriteAllText: creates the file or replaces its whole content. */
    method WriteAllText(path: Path, text: string)
      modifies this
      ensures State() == old(State()).(files := old(files)[path := text])
    {
      files := files[path := text];
    }
  }
}

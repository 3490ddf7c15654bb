/**
 * Properties of several manager calls in a row: what a run of AddFileToTask
 * calls leaves in one task's file list and how often it starts the archive
 * job, and how many of a run of CreateTask calls are admitted. Each run is
 * replayed with the step functions that the TaskManager methods are proved
 * to follow (IngestFile and CreateStep).
 */
module Replay {
  import opened TaskModel
  import opened Manager

  /**
   * The file list after AddFileToTask(id, urls[0]), AddFileToTask(id, urls[1]),
   * ... on a task whose list is `files`, paired with the number of those calls
   * that launched the archive job.
   */
  function Feed(files: seq<FileResult>, urls: seq<string>, allowed: string -> bool): (r: (seq<FileResult>, nat))
    requires |files| <= MaxFilesPerTask
    ensures |files| <= |r.0| <= MaxFilesPerTask
    ensures r.0[..|files|] == files
    ensures r.1 == if |files| < MaxFilesPerTask && |r.0| == MaxFilesPerTask then 1 else 0
    decreases |urls|
  {
    if urls == [] then (files, 0)
    else
      match IngestFile(files, urls[0], allowed)
      case Err(_) => Feed(files, urls[1..], allowed)
      case Ok(next) =>
        var rest := Feed(next, urls[1..], allowed);
        (rest.0, rest.1 + if |next| == MaxFilesPerTask then 1 else 0)
  }

  /** The first n URLs of urls that the extension predicate accepts, in submission order. */
  function FirstAllowed(urls: seq<string>, allowed: string -> bool, n: nat): (accepted: seq<string>)
    decreases |urls|
  {
    if n == 0 || urls == [] then []
    else if allowed(urls[0]) then [urls[0]] + FirstAllowed(urls[1..], allowed, n - 1)
    else FirstAllowed(urls[1..], allowed, n)
  }

  /** How many of urls the extension predicate accepts. */
  function CountAllowed(urls: seq<string>, allowed: string -> bool): (count: nat)
    decreases |urls|
  {
    if urls == [] then 0
    else (if allowed(urls[0]) then 1 else 0) + CountAllowed(urls[1..], allowed)
  }

  /** The pending records for urls, in the same order. */
  function PendingAll(urls: seq<string>): (records: seq<FileResult>)
    decreases |urls|
  {
    if urls == [] then [] else [Pending(urls[0])] + PendingAll(urls[1..])
  }

  lemma {:induction false} PendingAllLength(urls: seq<string>)
    ensures |PendingAll(urls)| == |urls|
    decreases |urls|
  {
    if urls != [] {
      PendingAllLength(urls[1..]);
    }
  }

  /** FirstAllowed takes min(n, CountAllowed) URLs. */
  lemma {:induction false} FirstAllowedLength(urls: seq<string>, allowed: string -> bool, n: nat)
    ensures |FirstAllowed(urls, allowed, n)| == if n <= CountAllowed(urls, allowed) then n else CountAllowed(urls, allowed)
    decreases |urls|
  {
    if n != 0 && urls != [] {
      if allowed(urls[0]) {
        FirstAllowedLength(urls[1..], allowed, n - 1);
      } else {
        FirstAllowedLength(urls[1..], allowed, n);
      }
    }
  }

  /**
   * A run of AddFileToTask calls keeps the files already there and appends,
   * in submission order, exactly the first URLs the extension predicate
   * accepts, until the quota of three is met; every later URL is refused.
   */
  lemma {:induction false} FeedAcceptsFirstAllowed(files: seq<FileResult>, urls: seq<string>, allowed: string -> bool)
    requires |files| <= MaxFilesPerTask
    ensures Feed(files, urls, allowed).0 == files + PendingAll(FirstAllowed(urls, allowed, MaxFilesPerTask - |files|))
    decreases |urls|
  {
    if urls != [] {
      if |files| < MaxFilesPerTask && allowed(urls[0]) {
        var next := files + [Pending(urls[0])];
        FeedAcceptsFirstAllowed(next, urls[1..], allowed);
        assert FirstAllowed(urls, allowed, MaxFilesPerTask - |files|)
            == [urls[0]] + FirstAllowed(urls[1..], allowed, MaxFilesPerTask - |next|);
      } else if |files| < MaxFilesPerTask {
        FeedAcceptsFirstAllowed(files, urls[1..], allowed);
      } else {
        FeedAcceptsFirstAllowed(files, urls[1..], allowed);
        assert FirstAllowed(urls, allowed, 0) == [];
      }
    }
  }

  /**
   * On a new task, a run of AddFileToTask calls launches the archive job
   * exactly once if at least three of its URLs pass the extension predicate,
   * and never otherwise.
   */
  lemma LaunchOnceIffThreeAllowed(urls: seq<string>, allowed: string -> bool)
    ensures Feed([], urls, allowed).1 == if CountAllowed(urls, allowed) >= MaxFilesPerTask then 1 else 0
  {
    FeedAcceptsFirstAllowed([], urls, allowed);
    FirstAllowedLength(urls, allowed, MaxFilesPerTask);
    PendingAllLength(FirstAllowed(urls, allowed, MaxFilesPerTask));
  }

  /**
   * The admission state after CreateTask(ids[0]), CreateTask(ids[1]), ...,
   * paired with the number of those calls that were admitted.
   */
  function CreateAll(s: Admission, maxActive: int, ids: seq<string>): (r: (Admission, nat))
    decreases |ids|
  {
    if ids == [] then (s, 0)
    else
      var (next, outcome) := CreateStep(s, maxActive, ids[0]);
      var rest := CreateAll(next, maxActive, ids[1..]);
      (rest.0, rest.1 + if outcome.Pass? then 1 else 0)
  }

  /**
   * Apart from Shutdown's reset to zero, nothing in the manager gives a slot
   * back, so a run of CreateTask calls admits exactly as many tasks as there
   * are free slots (or every call, if fewer), each admission adds one to the
   * counter, and the admission bound holds at the end.
   */
  lemma {:induction false} CreateAllFillsFreeSlots(s: Admission, maxActive: int, ids: seq<string>)
    requires AdmissionInv(s, maxActive)
    ensures var free := if maxActive - s.active < 0 then 0 else maxActive - s.active;
      CreateAll(s, maxActive, ids).1 == (if |ids| <= free then |ids| else free)
    ensures CreateAll(s, maxActive, ids).0.active == s.active + CreateAll(s, maxActive, ids).1
    ensures AdmissionInv(CreateAll(s, maxActive, ids).0, maxActive)
    decreases |ids|
  {
    if ids != [] {
      CreateStepPreservesInv(s, maxActive, ids[0]);
      CreateAllFillsFreeSlots(CreateStep(s, maxActive, ids[0]).0, maxActive, ids[1..]);
    }
  }

  /** With a bound of 3, three CreateTask calls on a new manager succeed and a fourth is refused as busy. */
  lemma FourthTaskRefused(a: string, b: string, c: string, d: string)
    ensures CreateAll(Admission({}, 0), 3, [a, b, c]).1 == 3
    ensures CreateStep(CreateAll(Admission({}, 0), 3, [a, b, c]).0, 3, d).1 == Fail(ServerBusy)
  {
    CreateAllFillsFreeSlots(Admission({}, 0), 3, [a, b, c]);
  }
}

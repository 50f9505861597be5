/** How the run manifest is replaced: written to a temporary file, then renamed over the old
    one, with a remove-and-retry fallback. Renaming is atomic; writing is not. */
module Manifest {
  import opened Text
  import opened Domain
  import opened EventLoops

  /** A file holds a whole manifest or what an interrupted write left of one. */
  datatype File = Torn | Whole(run: PausedRun)

  datatype Disk = Disk(manifest: Option<File>, temp: Option<File>)

  /** Which of the five file operations the system lets succeed. */
  datatype FileOps = FileOps(opens: bool, writes: bool, renames: bool, removes: bool, retries: bool) {
    predicate Replaces(previous: bool) { opens && writes && (renames || ((removes || !previous) && retries)) }
  }

  datatype WritePoint = ToOpen | ToWrite | ToRename | ToRemove | ToRetry | Saved | Refused

  /** One file operation of `writeManifest`; `works` says whether the system lets it succeed. A
      missing manifest counts as removed. */
  function WriteStep(m: PausedRun, disk: Disk, at: WritePoint, works: bool): (Disk, WritePoint) {
    match at
    case ToOpen => if works then (disk.(temp := Some(Torn)), ToWrite) else (disk, Refused)
    case ToWrite => if works then (disk.(temp := Some(Whole(m))), ToRename) else (disk, Refused)
    case ToRename => if works then (Disk(disk.temp, None), Saved) else (disk, ToRemove)
    case ToRemove => if works || disk.manifest.None? then (disk.(manifest := None), ToRetry) else (disk, Refused)
    case ToRetry => if works then (Disk(disk.temp, None), Saved) else (disk, Refused)
    case Saved => (disk, Saved)
    case Refused => (disk, Refused)
  }

  /** The disk after the first steps of a write, one per element. */
  function WriteSteps(m: PausedRun, disk: Disk, works: seq<bool>): (Disk, WritePoint) {
    if works == [] then (disk, ToOpen)
    else
      var (d, at) := WriteSteps(m, disk, works[..|works| - 1]);
      WriteStep(m, d, at, works[|works| - 1])
  }

  /** Where the write stands decides what the disk can look like. */
  ghost predicate WriteSound(m: PausedRun, before: Disk, now: Disk, at: WritePoint) {
    match at
    case ToOpen => now == before
    case ToWrite => now.manifest == before.manifest && now.temp == Some(Torn)
    case ToRename => now.manifest == before.manifest && now.temp == Some(Whole(m))
    case ToRemove => now.manifest == before.manifest && now.temp == Some(Whole(m))
    case ToRetry => now.manifest == None && now.temp == Some(Whole(m))
    case Saved => now == Disk(Some(Whole(m)), None)
    case Refused => now.manifest == before.manifest || (now.manifest == None && now.temp == Some(Whole(m)))
  }

  lemma WriteStepSound(m: PausedRun, before: Disk, now: Disk, at: WritePoint, works: bool)
    requires WriteSound(m, before, now, at)
    ensures var (d, next) := WriteStep(m, now, at, works); WriteSound(m, before, d, next)
  {
  }

  lemma {:induction false} WriteStepsSound(m: PausedRun, before: Disk, works: seq<bool>)
    ensures var (d, at) := WriteSteps(m, before, works); WriteSound(m, before, d, at)
  {
    if works != [] {
      var n := |works| - 1;
      var (d, at) := WriteSteps(m, before, works[..n]);
      WriteStepsSound(m, before, works[..n]);
      hide WriteStep, WriteSound;
      WriteStepSound(m, before, d, at, works[n]);
    }
  }

  /** How a replacement ends, by which of its five operations work. */
  lemma ReplacementEnds(m: PausedRun, disk: Disk, ops: FileOps)
    ensures var (d, at) := WriteSteps(m, disk, [ops.opens, ops.writes, ops.renames, ops.removes, ops.retries]);
            if ops.opens && ops.writes && (ops.renames || ((ops.removes || disk.manifest == None) && ops.retries))
            then at == Saved && d == Disk(Some(Whole(m)), None)
            else
              at == Refused && d.manifest ==
                if ops.opens && ops.writes && !ops.renames && (ops.removes || disk.manifest == None) then None else disk.manifest
    ensures ops.Replaces(disk.manifest.Some?) <==>
            ops.opens && ops.writes && (ops.renames || ((ops.removes || disk.manifest == None) && ops.retries))
  {
    var s1, s2, s3, s4 := WriteFully(m, disk, ops.opens, ops.writes, ops.renames, ops.removes, ops.retries);
    hide WriteSteps;
  }

  /** Stopping before, between or after any of the steps leaves the old manifest, the new one or,
      once a rename has failed and the old one was removed, none; never a part of one. A write
      that reports success has replaced it. */
  lemma StopAnywhere(m: PausedRun, before: Disk, works: seq<bool>)
    requires before.manifest != Some(Torn)
    ensures var (d, at) := WriteSteps(m, before, works);
            && d.manifest != Some(Torn)
            && (d.manifest == before.manifest || d.manifest == Some(Whole(m)) || d.manifest == None)
            && (at == Saved ==> d.manifest == Some(Whole(m)))
            && (d.manifest == None && before.manifest != None ==> |works| >= 4 && works[0] && works[1] && !works[2] && works[3])
            && (d.manifest != before.manifest && |works| <= 3 ==> works == [true, true, true])
  {
    WriteStepsSound(m, before, works);
    if |works| >= 1 { WriteFirst(m, before, works); }
  }

  /** What the first four steps amount to. */
  lemma {:induction false} WriteFirst(m: PausedRun, before: Disk, works: seq<bool>)
    requires |works| >= 1
    ensures var (d, at) := WriteSteps(m, before, works);
            && (|works| == 1 ==> at == if works[0] then ToWrite else Refused)
            && (|works| == 2 ==> at == if !works[0] || !works[1] then Refused else ToRename)
            && (|works| >= 2 && (!works[0] || !works[1]) ==> at == Refused && d.manifest == before.manifest)
            && (|works| >= 1 && !works[0] ==> at == Refused && d.manifest == before.manifest)
            && (|works| >= 3 && works[0] && works[1] && works[2] ==> at == Saved)
            && (|works| == 3 && works[0] && works[1] && !works[2] ==> at == ToRemove)
            && (|works| >= 4 && works[0] && works[1] && !works[2] && !works[3] && before.manifest != None ==>
                  at == Refused && d.manifest == before.manifest)
  {
    var n := |works| - 1;
    WriteStepsSound(m, before, works[..n]);
    if n >= 1 {
      WriteFirst(m, before, works[..n]);
    } else {
      assert works[..n] == [];
    }
  }

  /** The state directory: the manifest file and its temporary neighbour. */
  class StateDir {
    var manifest: Option<File>
    var temp: Option<File>

    function View(): Disk
      reads this
    {
      Disk(manifest, temp)
    }

    constructor (disk: Disk)
      ensures View() == disk
    {
      manifest, temp := disk.manifest, disk.temp;
    }

    /** `readManifest`; a missing or damaged file is an error. */
    method ReadManifest() returns (r: Result<PausedRun>)
      ensures r == if manifest.Some? && manifest.value.Whole? then Ok(manifest.value.run) else Err(Unclassified)
    {
      if manifest == None { return Err(Unclassified); }
      match manifest.value {
        case Torn => r := Err(Unclassified);
        case Whole(run) => r := Ok(run);
      }
    }

    method WriteManifest(m: PausedRun, ops: FileOps) returns (ok: bool)
      modifies this
      ensures ok <==>
              ops.opens && ops.writes && (ops.renames || ((ops.removes || old(manifest) == None) && ops.retries))
      ensures ok ==> View() == Disk(Some(Whole(m)), None)
      ensures !ok ==> manifest == old(manifest) || (manifest == None && ops.opens && ops.writes && !ops.renames && ops.removes)
      ensures (View(), if ok then Saved else Refused)
              == WriteSteps(m, old(View()), [ops.opens, ops.writes, ops.renames, ops.removes, ops.retries])
    {
      ghost var s1, s2, s3, s4 := WriteFully(m, View(), ops.opens, ops.writes, ops.renames, ops.removes, ops.retries);
      hide WriteSteps;
      if !ops.opens { return false; }
      temp := Some(Torn);
      if !ops.writes { return false; }
      temp := Some(Whole(m));
      if !ops.renames {
        if !ops.removes && manifest != None { return false; }
        manifest := None;
        if !ops.retries { return false; }
      }
      manifest := temp;
      temp := None;
      ok := true;
    }
  }

  /** Five steps finish any write. */
  lemma WriteFully(m: PausedRun, disk: Disk, a: bool, b: bool, c: bool, d: bool, e: bool)
    returns (s1: (Disk, WritePoint), s2: (Disk, WritePoint), s3: (Disk, WritePoint), s4: (Disk, WritePoint))
    ensures s1 == WriteStep(m, disk, ToOpen, a)
    ensures s2 == WriteStep(m, s1.0, s1.1, b)
    ensures s3 == WriteStep(m, s2.0, s2.1, c)
    ensures s4 == WriteStep(m, s3.0, s3.1, d)
    ensures WriteSteps(m, disk, [a, b, c, d, e]) == WriteStep(m, s4.0, s4.1, e)
  {
    assert WriteSteps(m, disk, []) == (disk, ToOpen);
    hide WriteStep, WriteSteps;
    s1 := WriteSteps(m, disk, [a]);
    s2 := WriteSteps(m, disk, [a, b]);
    s3 := WriteSteps(m, disk, [a, b, c]);
    s4 := WriteSteps(m, disk, [a, b, c, d]);
    WriteSnoc(m, disk, [], a);
    assert [] + [a] == [a];
    WriteSnoc(m, disk, [a], b);
    assert [a] + [b] == [a, b];
    WriteSnoc(m, disk, [a, b], c);
    assert [a, b] + [c] == [a, b, c];
    WriteSnoc(m, disk, [a, b, c], d);
    assert [a, b, c] + [d] == [a, b, c, d];
    WriteSnoc(m, disk, [a, b, c, d], e);
    assert [a, b, c, d] + [e] == [a, b, c, d, e];
  }

  lemma WriteSnoc(m: PausedRun, disk: Disk, works: seq<bool>, w: bool)
    ensures WriteSteps(m, disk, works + [w]) ==
              var (d, at) := WriteSteps(m, disk, works); WriteStep(m, d, at, w)
  {
    assert (works + [w])[..|works|] == works;
  }
}

/** The rotating log (src/telemetry/logger.cpp) over a directory modelled as a map from file index
    to lines: 0 is the active file, i the i-th backup. File operations succeed. */
module RotatingLogger {
  import opened Common

  type Line = string
  type Disk = map<nat, seq<Line>>

  function Size(lines: seq<Line>): nat {
    if lines == [] then 0 else Size(lines[..|lines| - 1]) + |lines[|lines| - 1]| + 1
  }

  /** `rename` replaces the target; a missing source is an error that changes nothing. */
  function Renamed(disk: Disk, a: nat, b: nat): Disk
    requires a != b
  {
    if a in disk then (disk - {a})[b := disk[a]] else disk
  }

  function At(disk: Disk, j: nat): Option<seq<Line>> { if j in disk then Some(disk[j]) else None }

  /** In the middle of a rotation: the files above `hole` have moved up by one index. */
  ghost predicate ShiftedAbove(was: Disk, now: Disk, maxFiles: nat, hole: nat) {
    forall j: nat {:trigger At(now, j)} :: At(now, j) == if j < hole || j >= maxFiles then At(was, j) else if j == hole then None else At(was, j - 1)
  }

  /** Every file has moved up by one index, the oldest was dropped, and `active` is the active file. */
  ghost predicate IsRotation(was: Disk, now: Disk, maxFiles: nat, active: seq<Line>) {
    forall j: nat {:trigger At(now, j)} :: At(now, j) == if j == 0 then Some(active) else if j < maxFiles then At(was, j - 1) else At(was, j)
  }

  predicate MustRotate(disk: Disk, maxBytes: nat, line: Line)
    requires 0 in disk
  {
    Size(disk[0]) > 0 && Size(disk[0]) + |line| + 1 > maxBytes
  }

  /** What writing a line does to the directory. */
  ghost predicate IsWrite(was: Disk, now: Disk, maxBytes: nat, maxFiles: nat, line: Line) {
    && 0 in was
    && if MustRotate(was, maxBytes, line) then IsRotation(was, now, maxFiles, [line]) else now == was[0 := was[0] + [line]]
  }

  lemma FirstHole(was: Disk, maxFiles: nat)
    requires maxFiles > 1
    ensures ShiftedAbove(was, was - {maxFiles - 1}, maxFiles, maxFiles - 1)
  {
  }

  lemma RenameShifts(was: Disk, now: Disk, maxFiles: nat, hole: nat)
    requires 1 <= hole < maxFiles && ShiftedAbove(was, now, maxFiles, hole)
    ensures ShiftedAbove(was, Renamed(now, hole - 1, hole), maxFiles, hole - 1)
  {
    var next := Renamed(now, hole - 1, hole);
    assert At(now, hole - 1) == At(was, hole - 1);
    assert At(now, hole) == None;
    forall j: nat ensures At(next, j) == if j == hole then At(now, hole - 1) else if j == hole - 1 then None else At(now, j) {
    }
  }

  /** The end of a rotation: the hole has moved all the way down, and an empty file fills it. */
  lemma RotationDone(was: Disk, shifted: Disk, maxFiles: nat)
    requires maxFiles >= 1 && if maxFiles > 1 then ShiftedAbove(was, shifted, maxFiles, 0) else shifted == was
    ensures IsRotation(was, shifted[0 := []], maxFiles, [])
  {
    var now := shifted[0 := []];
    assert forall j: nat | j > 0 :: At(now, j) == At(shifted, j);
  }

  /** The first line after a rotation. */
  lemma RotatedWrite(was: Disk, rotated: Disk, maxFiles: nat, line: Line)
    requires IsRotation(was, rotated, maxFiles, [])
    ensures 0 in rotated && rotated[0] == []
    ensures IsRotation(was, rotated[0 := [line]], maxFiles, [line])
  {
    assert At(rotated, 0) == Some([]);
    var now := rotated[0 := [line]];
    assert forall j: nat | j > 0 :: At(now, j) == At(rotated, j);
  }

  lemma SizeGrows(lines: seq<Line>, line: Line)
    ensures Size(lines + [line]) == Size(lines) + |line| + 1
  {
    assert (lines + [line])[..|lines + [line]| - 1] == lines;
  }

  class RotatingLogger {
    const maxBytes: nat
    const maxFiles: nat
    var disk: Disk
    var isOpen: bool
    var currentSize: nat
    var rotationCount: nat

    ghost predicate Valid()
      reads this
    {
      maxFiles >= 1 && (isOpen ==> 0 in disk && currentSize == Size(disk[0]))
    }

    constructor (disk: Disk, maxBytes: nat, maxFiles: int)
      ensures Valid() && !isOpen && this.disk == disk && this.maxBytes == maxBytes
      ensures this.maxFiles == Max(maxFiles, 1) && rotationCount == 0
    {
      this.disk := disk;
      this.maxBytes := maxBytes;
      this.maxFiles := if maxFiles < 1 then 1 else maxFiles;
      isOpen, currentSize, rotationCount := false, 0, 0;
    }

    /** Opens for appending: what is there stays. */
    method Open()
      requires Valid()
      modifies this
      ensures Valid() && isOpen && rotationCount == old(rotationCount)
      ensures disk == if 0 in old(disk) then old(disk) else old(disk)[0 := []]
    {
      if 0 !in disk {
        disk := disk[0 := []];
      }
      isOpen := true;
      currentSize := Size(disk[0]);
    }

    method Rename(a: nat, b: nat)
      requires a != b
      modifies this`disk
      ensures disk == Renamed(old(disk), a, b)
    {
      if a in disk {
        var lines := disk[a];
        disk := (disk - {a})[b := lines];
      }
    }

    method Rotate()
      requires maxFiles >= 1
      modifies this`disk, this`currentSize, this`rotationCount
      ensures IsRotation(old(disk), disk, maxFiles, []) && currentSize == 0
      ensures rotationCount == old(rotationCount) + 1
    {
      ghost var was := disk;
      hide ShiftedAbove, IsRotation;
      if maxFiles > 1 {
        FirstHole(was, maxFiles);
        disk := disk - {maxFiles - 1};
        var i := maxFiles - 2;
        while i >= 1
          modifies this`disk
          invariant 0 <= i && ShiftedAbove(was, disk, maxFiles, i + 1)
        {
          RenameShifts(was, disk, maxFiles, i + 1);
          Rename(i, i + 1);
          i := i - 1;
        }
        RenameShifts(was, disk, maxFiles, 1);
        Rename(0, 1);
      }
      RotationDone(was, disk, maxFiles);
      disk := disk[0 := []];
      currentSize := 0;
      rotationCount := rotationCount + 1;
    }

    method WriteLine(line: Line)
      requires Valid()
      modifies this
      ensures Valid() && isOpen == old(isOpen)
      ensures if isOpen then IsWrite(old(disk), disk, maxBytes, maxFiles, line) else disk == old(disk)
      ensures rotationCount == old(rotationCount) + (if isOpen && MustRotate(old(disk), maxBytes, line) then 1 else 0)
    {
      if !isOpen {
        return;
      }
      ghost var was := disk;
      hide IsRotation, Size;
      SizeGrows(disk[0], line);
      SizeGrows([], line);
      SizeOfNothing();
      var needed := |line| + 1;
      if currentSize > 0 && currentSize + needed > maxBytes {
        Rotate();
        RotatedWrite(was, disk, maxFiles, line);
        assert disk[0] + [line] == [line];
      }
      disk := disk[0 := disk[0] + [line]];
      currentSize := currentSize + needed;
    }
  }

  lemma SizeOfNothing()
    ensures Size([]) == 0
  {
  }

  // ------------------------------------------------------------------------------------
  // What the directory holds
  // ------------------------------------------------------------------------------------

  /** Files `k` down to 0, oldest line first. */
  function Kept(disk: Disk, k: nat): seq<Line>
    requires forall j: nat | j <= k :: j in disk
  {
    if k == 0 then disk[0] else disk[k] + Kept(disk, k - 1)
  }

  ghost predicate Backed(disk: Disk, k: nat) { forall j: nat :: j in disk <==> j <= k }

  /** The directory after writing `history` into it: `k` backups, what they and the active file hold
      is the end of the history, and nothing is lost before every slot is in use. */
  ghost predicate Holds(disk: Disk, maxBytes: nat, maxFiles: nat, history: seq<Line>, k: nat) {
    && k < maxFiles && Backed(disk, k)
    && KeepsEnd(disk, maxFiles, history, k)
    && (forall j: nat | j <= k :: Size(disk[j]) <= maxBytes || |disk[j]| == 1)
    && (forall j: nat | j < k :: disk[j] != [] && Size(disk[j + 1]) + |disk[j][0]| + 1 > maxBytes)
    && (forall j: nat | 0 < j <= k :: disk[j] != [])
  }

  lemma {:induction false} KeptShifts(was: Disk, now: Disk, maxFiles: nat, k: nat, active: seq<Line>)
    requires IsRotation(was, now, maxFiles, active) && k + 1 < maxFiles && forall j: nat | j <= k :: j in was
    ensures forall j: nat | j <= k + 1 :: j in now
    ensures Kept(now, k + 1) == Kept(was, k) + active
  {
    forall j: nat | j <= k + 1 ensures j in now {
      assert At(now, j) == if j == 0 then Some(active) else At(was, j - 1);
    }
    assert At(now, k + 1) == At(was, k) && At(now, 0) == Some(active);
    if k > 0 { KeptShifts(was, now, maxFiles, k - 1, active); }
  }

  lemma {:induction false} KeptSame(was: Disk, now: Disk, k: nat, line: Line)
    requires (forall j: nat | j <= k :: j in was) && now == was[0 := was[0] + [line]]
    ensures Kept(now, k) == Kept(was, k) + [line]
  {
    if k > 0 { KeptSame(was, now, k - 1, line); }
  }

  lemma SizeOfOne(line: Line, lines: seq<Line>)
    ensures Size([line]) == |line| + 1 && (lines != [] <==> Size(lines) > 0)
    ensures Size(lines + [line]) == Size(lines) + |line| + 1
  {
    assert [line][..0] == [];
    assert (lines + [line])[..|lines + [line]| - 1] == lines;
  }

  lemma AppendHolds(was: Disk, now: Disk, maxBytes: nat, maxFiles: nat, history: seq<Line>, k: nat, line: Line)
    requires Holds(was, maxBytes, maxFiles, history, k) && now == was[0 := was[0] + [line]]
    requires !MustRotate(was, maxBytes, line)
    ensures Holds(now, maxBytes, maxFiles, history + [line], k)
  {
    KeptSame(was, now, k, line);
    SizeOfOne(line, was[0]);
    hide Kept, Size;
    SuffixGrows(history, line, |history| - |Kept(was, k)|);
  }

  /** Where the files go in a rotation, and that each is as full as it can be. */
  lemma RotateShape(was: Disk, now: Disk, maxBytes: nat, maxFiles: nat, history: seq<Line>, k: nat, line: Line, to: nat)
    requires Holds(was, maxBytes, maxFiles, history, k) && IsRotation(was, now, maxFiles, [line])
    requires MustRotate(was, maxBytes, line) && to == Min(k + 1, maxFiles - 1)
    ensures Backed(now, to) && now[0] == [line] && forall j: nat | 0 < j <= to :: now[j] == was[j - 1]
    ensures forall j: nat | j <= to :: Size(now[j]) <= maxBytes || |now[j]| == 1
    ensures forall j: nat | j < to :: now[j] != [] && Size(now[j + 1]) + |now[j][0]| + 1 > maxBytes
    ensures forall j: nat | 0 < j <= to :: now[j] != []
  {
    SizeOfOne(line, was[0]);
    hide Kept, Size;
    forall j: nat ensures (j in now <==> j <= to) && (0 < j <= to ==> now[j] == was[j - 1]) && (j == 0 ==> At(now, 0) == Some([line])) {
      assert At(now, j) == if j == 0 then Some([line]) else if j < maxFiles then At(was, j - 1) else At(was, j);
    }
  }

  /** `Kept` is the end of the history, and all of it while a slot is free. */
  ghost predicate KeepsEnd(disk: Disk, maxFiles: nat, history: seq<Line>, k: nat)
    requires forall j: nat | j <= k :: j in disk
  {
    && |Kept(disk, k)| <= |history| && Kept(disk, k) == history[|history| - |Kept(disk, k)|..]
    && (k + 1 < maxFiles ==> Kept(disk, k) == history)
  }

  lemma RotateKeepsEnd(was: Disk, now: Disk, maxFiles: nat, history: seq<Line>, k: nat, line: Line, to: nat)
    requires k < maxFiles && Backed(was, k) && KeepsEnd(was, maxFiles, history, k)
    requires IsRotation(was, now, maxFiles, [line]) && to == Min(k + 1, maxFiles - 1) && Backed(now, to) && now[0] == [line]
    ensures KeepsEnd(now, maxFiles, history + [line], to)
  {
    var cut := |history| - |Kept(was, k)|;
    if k + 1 < maxFiles {
      KeptShifts(was, now, maxFiles, k, [line]);
      SuffixGrows(history, line, cut);
    } else if k > 0 {
      KeptShifts(was, now, maxFiles, k - 1, [line]);
      var next := cut + |was[k]|;
      assert history[next..] == Kept(was, k - 1) by { SuffixSplits(history, cut, was[k], Kept(was, k - 1)); }
      SuffixGrows(history, line, next);
    } else {
      SuffixGrows(history, line, |history|);
    }
  }

  lemma SuffixSplits(h: seq<Line>, cut: nat, a: seq<Line>, b: seq<Line>)
    requires cut <= |h| && h[cut..] == a + b
    ensures cut + |a| <= |h| && h[cut + |a|..] == b
  {
    assert h[cut + |a|..] == h[cut..][|a|..];
  }

  lemma RotateHolds(was: Disk, now: Disk, maxBytes: nat, maxFiles: nat, history: seq<Line>, k: nat, line: Line)
    requires Holds(was, maxBytes, maxFiles, history, k) && IsRotation(was, now, maxFiles, [line])
    requires MustRotate(was, maxBytes, line)
    ensures Holds(now, maxBytes, maxFiles, history + [line], Min(k + 1, maxFiles - 1))
  {
    var to := Min(k + 1, maxFiles - 1);
    RotateShape(was, now, maxBytes, maxFiles, history, k, line, to);
    RotateKeepsEnd(was, now, maxFiles, history, k, line, to);
    hide IsRotation, Size, KeepsEnd, MustRotate;
  }

  /** A fresh directory, opened and written to line by line; the logger may be closed and opened
      again in between. */
  ghost predicate IsLogging(disks: seq<Disk>, lines: seq<Line>, maxBytes: nat, maxFiles: nat) {
    && |disks| == |lines| + 1 && maxFiles >= 1 && disks[0] == map[0 := []]
    && forall i {:trigger lines[i]} | 0 <= i < |lines| :: IsWrite(disks[i], disks[i + 1], maxBytes, maxFiles, lines[i])
  }

  /** The log keeps a suffix. However much is written, backups oldest to newest and then the active
      file are, line for line, the end of what was written; nothing is dropped while a slot is
      free; a file over the limit holds a single line; and no file was closed while the next line
      would still have fitted. */
  lemma {:induction false} LogKeepsASuffix(disks: seq<Disk>, lines: seq<Line>, maxBytes: nat, maxFiles: nat, n: nat)
    returns (k: nat)
    requires IsLogging(disks, lines, maxBytes, maxFiles) && n <= |lines|
    ensures Holds(disks[n], maxBytes, maxFiles, lines[..n], k)
    ensures |disks[n]| == k + 1 <= maxFiles
  {
    hide Holds, IsWrite, IsRotation;
    if n == 0 {
      k := 0;
      EmptyHolds(maxBytes, maxFiles);
      assert lines[..0] == [];
    } else {
      k := LogKeepsASuffix(disks, lines, maxBytes, maxFiles, n - 1);
      assert IsWrite(disks[n - 1], disks[n], maxBytes, maxFiles, lines[n - 1]);
      assert lines[..n] == lines[..n - 1] + [lines[n - 1]];
      k := WriteHolds(disks[n - 1], disks[n], maxBytes, maxFiles, lines[..n - 1], k, lines[n - 1]);
    }
    CountFiles(disks[n], maxBytes, maxFiles, lines[..n], k);
  }

  lemma EmptyHolds(maxBytes: nat, maxFiles: nat)
    requires maxFiles >= 1
    ensures Holds(map[0 := []], maxBytes, maxFiles, [], 0)
  {
  }

  lemma WriteHolds(was: Disk, now: Disk, maxBytes: nat, maxFiles: nat, history: seq<Line>, k: nat, line: Line) returns (to: nat)
    requires Holds(was, maxBytes, maxFiles, history, k) && IsWrite(was, now, maxBytes, maxFiles, line)
    ensures Holds(now, maxBytes, maxFiles, history + [line], to)
  {
    hide Holds, IsRotation;
    if MustRotate(was, maxBytes, line) {
      HoldsBound(was, maxBytes, maxFiles, history, k);
      to := Min(k + 1, maxFiles - 1);
      RotateHolds(was, now, maxBytes, maxFiles, history, k, line);
    } else {
      to := k;
      AppendHolds(was, now, maxBytes, maxFiles, history, k, line);
    }
  }

  lemma HoldsBound(disk: Disk, maxBytes: nat, maxFiles: nat, history: seq<Line>, k: nat)
    requires Holds(disk, maxBytes, maxFiles, history, k)
    ensures k < maxFiles
  {
  }

  lemma CountFiles(disk: Disk, maxBytes: nat, maxFiles: nat, history: seq<Line>, k: nat)
    requires Holds(disk, maxBytes, maxFiles, history, k)
    ensures |disk| == k + 1 <= maxFiles
  {
    assert disk.Keys == UpTo(k + 1);
  }

  function UpTo(n: nat): (s: set<nat>)
    ensures |s| == n && forall j: nat :: j in s <==> j < n
  {
    if n == 0 then {} else UpTo(n - 1) + {n - 1}
  }
}

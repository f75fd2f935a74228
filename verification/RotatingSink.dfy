/** The log file that is rotated when it is full: `log.txt` becomes `log.1.txt`, that becomes `log.2.txt`, and so on. */
module RotatingSink {
  import opened Prelude
  import opened Text

  const MAX_FILES: nat := 200000

  type Bytes = seq<Byte>

  // ---------------------------------------------------------------------------------------------
  // File names

  /** The last place of `c`. */
  function LastIndex(s: string, c: char): (r: Option<nat>)
    ensures match r
            case Some(i) => i < |s| && s[i] == c && forall k :: i < k < |s| ==> s[k] != c
            case None => c !in s
  {
    if s == "" then None
    else if s[|s| - 1] == c then Some(|s| - 1)
    else LastIndex(s[..|s| - 1], c)
  }

  /** The place of the dot of an extension; hidden files and dots in folder names have none. */
  function ExtensionIndex(name: string): (r: Option<nat>)
    ensures r.Some? ==> 0 < r.value < |name| - 1 && name[r.value] == '.'
  {
    match LastIndex(name, '.')
    case None => None
    case Some(ext) =>
      if ext == 0 || ext == |name| - 1 then None
      else match LastIndex(name, '/')
        case Some(folder) => if folder >= ext - 1 then None else Some(ext)
        case None => Some(ext)
  }

  function SplitByExtension(name: string): (r: (string, string))
    ensures r.0 + r.1 == name
  {
    match ExtensionIndex(name)
    case None => (name, "")
    case Some(ext) => (name[..ext], name[ext..])
  }

  /** What stands before an extension is never empty or a bare folder, and the extension has one dot and no folder. */
  lemma {:induction false} SplitIsSound(name: string)
    ensures var (base, ext) := SplitByExtension(name);
            ext != "" ==>
              && base != "" && base[|base| - 1] != '/'
              && |ext| > 1 && ext[0] == '.' && '/' !in ext && '.' !in ext[1..]
  {
    match LastIndex(name, '/')
    case Some(folder) =>
    case None =>
  }

  /** Base and extension: one proper dot, not at the start of a name and not in or behind a folder. */
  predicate IsExtension(base: string, ext: string) {
    && base != "" && base[|base| - 1] != '/'
    && |ext| > 1 && ext[0] == '.' && '.' !in ext[1..] && '/' !in ext
  }

  lemma {:induction false} LastIs(s: string, c: char, n: nat)
    requires n < |s| && s[n] == c && forall k :: n < k < |s| ==> s[k] != c
    ensures LastIndex(s, c) == Some(n)
  {
  }

  /** A name has an extension exactly when it can be split so, and then this is the extension. */
  lemma {:induction false} ExtensionIsExact(name: string, base: string, ext: string)
    ensures SplitByExtension(name) == (base, ext) && ext != "" <==> name == base + ext && IsExtension(base, ext)
  {
    if name == base + ext && IsExtension(base, ext) {
      assert name[|base|] == ext[0];
      assert forall k :: |base| < k < |name| ==> name[k] == ext[1..][k - |base| - 1];
      LastIs(name, '.', |base|);
      assert forall k :: |base| <= k < |name| ==> name[k] == ext[k - |base|];
      assert name[|base| - 1] == base[|base| - 1];
      assert name[..|base|] == base && name[|base|..] == ext;
    } else if SplitByExtension(name) == (base, ext) && ext != "" {
      SplitIsSound(name);
    }
  }

  function CalcFilename(name: string, index: nat): string {
    if index == 0 then name
    else
      var (base, ext) := SplitByExtension(name);
      base + "." + Decimal(index) + ext
  }

  /** The index comes before the extension, and at the end of a name without one. */
  lemma {:induction false} IndexBeforeExtension(name: string, index: nat)
    requires index > 0
    ensures forall base, ext :: name == base + ext && IsExtension(base, ext) ==>
              CalcFilename(name, index) == base + "." + Decimal(index) + ext
    ensures (forall base, ext :: name == base + ext ==> !IsExtension(base, ext)) ==>
              CalcFilename(name, index) == name + "." + Decimal(index)
    ensures CalcFilename(name, 0) == name
  {
    forall base, ext | name == base + ext && IsExtension(base, ext)
      ensures CalcFilename(name, index) == base + "." + Decimal(index) + ext
    {
      ExtensionIsExact(name, base, ext);
    }
    var (base, ext) := SplitByExtension(name);
    ExtensionIsExact(name, base, ext);
    if ext == "" {
      assert base == name && base + "." + Decimal(index) + "" == name + "." + Decimal(index);
    }
  }

  /** No two indices share a file name. */
  lemma {:induction false} NamesDiffer(name: string, i: nat, j: nat)
    requires CalcFilename(name, i) == CalcFilename(name, j)
    ensures i == j
  {
    var (base, ext) := SplitByExtension(name);
    if i != 0 && j != 0 {
      var a, b := CalcFilename(name, i), CalcFilename(name, j);
      assert |Decimal(i)| == |Decimal(j)|;
      assert Decimal(i) == a[|base| + 1..|base| + 1 + |Decimal(i)|];
      assert Decimal(j) == b[|base| + 1..|base| + 1 + |Decimal(j)|];
      DecimalInjective(i, j);
    }
  }

  // ---------------------------------------------------------------------------------------------
  // What the files hold

  function Get(files: map<string, Bytes>, name: string): Option<Bytes> {
    if name in files then Some(files[name]) else None
  }

  function Content(file: Option<Bytes>): Bytes {
    match file
    case None => []
    case Some(bytes) => bytes
  }

  /** The file names of the indices 0 to `n`. */
  function Names(name: string, n: nat): (names: seq<string>)
    ensures |names| == n + 1 && names[0] == name
  {
    seq(n + 1, k requires 0 <= k <= n => CalcFilename(name, k))
  }

  predicate Distinct(names: seq<string>) {
    forall i, j :: 0 <= i < |names| && 0 <= j < |names| && names[i] == names[j] ==> i == j
  }

  lemma {:induction false} NamesAreDistinct(name: string, n: nat)
    ensures Distinct(Names(name, n))
  {
    var names := Names(name, n);
    forall i, j | 0 <= i < |names| && 0 <= j < |names| && names[i] == names[j]
      ensures i == j
    {
      NamesDiffer(name, i, j);
    }
  }

  /** The files of some names. */
  function Snapshot(files: map<string, Bytes>, names: seq<string>): (snap: seq<Option<Bytes>>)
    ensures |snap| == |names|
  {
    seq(|names|, k requires 0 <= k < |names| => Get(files, names[k]))
  }

  /** The contents from the last file down to the first, which is from the oldest to the newest. */
  function Joined(snap: seq<Option<Bytes>>): Bytes {
    if snap == [] then [] else Content(snap[|snap| - 1]) + Joined(snap[..|snap| - 1])
  }

  function Stored(files: map<string, Bytes>, names: seq<string>): Bytes {
    Joined(Snapshot(files, names))
  }

  predicate IsSuffix(s: Bytes, t: Bytes) {
    |s| <= |t| && t[|t| - |s|..] == s
  }

  lemma {:induction false} SuffixGrows(s: Bytes, t: Bytes, more: Bytes)
    requires IsSuffix(s, t)
    ensures IsSuffix(s + more, t + more)
  {
  }

  lemma {:induction false} SuffixOfSuffix(a: Bytes, s: Bytes, t: Bytes)
    requires IsSuffix(a + s, t)
    ensures IsSuffix(s, t)
  {
    assert t[|t| - |s|..] == t[|t| - |a + s|..][|a|..];
  }

  lemma {:induction false} SuffixWithoutEnd(whole: Bytes, a: Bytes, s: Bytes, c: Bytes, t: Bytes)
    requires whole == a + s + c && IsSuffix(whole, t)
    ensures |c| <= |t| && IsSuffix(s, t[..|t| - |c|])
  {
    var u, n := t[..|t| - |c|], |t| - |a + s + c|;
    assert u[|u| - |s|..] == t[n..][|a|..|a| + |s|];
    assert (a + s + c)[|a|..|a| + |s|] == s;
  }

  /** The file that a rotation leaves at place `k`. */
  function Moved(snap: seq<Option<Bytes>>, k: nat): Option<Bytes>
    requires k < |snap|
  {
    if k > 0 && snap[k - 1].Some? then snap[k - 1]
    else if k == |snap| - 1 then snap[k]
    else None
  }

  /** Every file moves up one place, and the newest is empty. */
  function Shifted(snap: seq<Option<Bytes>>): (r: seq<Option<Bytes>>)
    ensures |r| == |snap|
  {
    seq(|snap|, k requires 0 <= k < |snap| => if k == 0 then Some([]) else Moved(snap, k))
  }

  /** The content a rotation gives up: the oldest file, if there is a file to take its place. */
  function GivenUp(snap: seq<Option<Bytes>>): Bytes
    requires snap != []
  {
    var n := |snap| - 1;
    if n == 0 || snap[n - 1].Some? then Content(snap[n]) else []
  }

  lemma {:induction false} YoungerMoveUp(snap: seq<Option<Bytes>>, m: nat)
    requires m < |snap| - 1
    ensures Joined(Shifted(snap)[..m + 1]) == Joined(snap[..m])
  {
    var r := Shifted(snap);
    assert r[..m + 1][..m] == r[..m];
    if m > 0 {
      YoungerMoveUp(snap, m - 1);
      assert snap[..m][..m - 1] == snap[..m - 1];
    } else {
      assert |r[..m]| == |snap[..m]| == 0;
    }
  }

  /** A rotation gives up the oldest file at most, and keeps all else in order, whatever gaps the numbering has. */
  lemma {:induction false} OnlyTheOldestIsGivenUp(snap: seq<Option<Bytes>>)
    requires snap != []
    ensures Joined(snap) == GivenUp(snap) + Joined(Shifted(snap))
  {
    var n := |snap| - 1;
    if n > 0 {
      YoungerMoveUp(snap, n - 1);
      assert snap[..n][..n - 1] == snap[..n - 1];
    } else {
      assert |snap[..n]| == |Shifted(snap)[..n]| == 0;
    }
  }

  ghost predicate Rotated(before: map<string, Bytes>, after: map<string, Bytes>, names: seq<string>) {
    && Snapshot(after, names) == Shifted(Snapshot(before, names))
    && OthersStay(before, after, names)
  }

  ghost predicate OthersStay(before: map<string, Bytes>, after: map<string, Bytes>, names: seq<string>) {
    forall f :: f !in names ==> Get(after, f) == Get(before, f)
  }

  /** The files when those from place `i` on have moved up. */
  function HalfShifted(snap: seq<Option<Bytes>>, i: nat): (r: seq<Option<Bytes>>)
    requires i < |snap|
    ensures |r| == |snap|
  {
    seq(|snap|, k requires 0 <= k < |snap| =>
      if k < i then snap[k]
      else if k > i then Moved(snap, k)
      else if i == |snap| - 1 then snap[i] else None)
  }

  lemma {:induction false} ShiftStep(snap: seq<Option<Bytes>>, i: nat)
    requires 0 < i < |snap|
    ensures HalfShifted(snap, i)[i - 1] == snap[i - 1]
    ensures HalfShifted(snap, i - 1) == if snap[i - 1].Some? then HalfShifted(snap, i)[i := snap[i - 1]][i - 1 := None]
                                        else HalfShifted(snap, i)
  {
  }

  lemma {:induction false} ShiftEnds(snap: seq<Option<Bytes>>)
    requires snap != []
    ensures HalfShifted(snap, |snap| - 1) == snap && HalfShifted(snap, 0)[0 := Some([])] == Shifted(snap)
  {
  }

  /** Above the place where a rotation stops, files have moved up; below it, they are where they were. */
  lemma {:induction false} HalfMoved(snap: seq<Option<Bytes>>, i: nat, m: nat)
    requires i <= m < |snap| - 1
    ensures Joined(HalfShifted(snap, i)[..m + 1]) == Joined(snap[..m])
  {
    var r := HalfShifted(snap, i);
    assert r[..m + 1][..m] == r[..m] && r[..m + 1][m] == r[m];
    if m == i {
      assert r[m] == None && r[..m] == snap[..m];
    } else {
      assert r[m] == Moved(snap, m);
      HalfMoved(snap, i, m - 1);
      assert snap[..m][..m - 1] == snap[..m - 1];
    }
  }

  /** A rotation that stops at place `i` because a rename failed: the target is gone and the newest file is empty. */
  function StoppedAt(snap: seq<Option<Bytes>>, i: nat): (r: seq<Option<Bytes>>)
    requires 0 < i < |snap|
    ensures |r| == |snap|
  {
    HalfShifted(snap, i)[i := None][0 := Some([])]
  }

  lemma {:induction false} HalfKeeps(snap: seq<Option<Bytes>>, i: nat)
    requires 0 < i < |snap| && snap[i - 1].Some?
    ensures Joined(snap) == GivenUp(snap) + Joined(HalfShifted(snap, i)[i := None])
  {
    var n, half := |snap| - 1, HalfShifted(snap, i)[i := None];
    if i == n {
      assert half[..n] == snap[..n];
    } else {
      assert half == HalfShifted(snap, i);
      YoungerKeep(snap, i);
    }
  }

  lemma {:induction false} YoungerKeep(snap: seq<Option<Bytes>>, i: nat)
    requires 0 < i < |snap| - 1
    ensures Joined(snap) == GivenUp(snap) + Joined(HalfShifted(snap, i))
  {
    var n, half := |snap| - 1, HalfShifted(snap, i);
    var rest := Joined(snap[..n - 1]);
    assert half[n] == Moved(snap, n);
    HalfMoved(snap, i, n - 1);
    JoinedTwo(snap);
    MovedContent(snap);
    Associate(GivenUp(snap), Content(half[n]), rest);
    Associate(Content(snap[n]), Content(snap[n - 1]), rest);
  }

  /** The file given up and the one in its place hold what the last two files held. */
  lemma {:induction false} MovedContent(snap: seq<Option<Bytes>>)
    requires |snap| >= 2
    ensures var n := |snap| - 1;
            GivenUp(snap) + Content(Moved(snap, n)) == Content(snap[n]) + Content(snap[n - 1])
  {
  }

  lemma {:induction false} JoinedTwo(snap: seq<Option<Bytes>>)
    requires |snap| >= 2
    ensures var n := |snap| - 1;
            Joined(snap) == Content(snap[n]) + (Content(snap[n - 1]) + Joined(snap[..n - 1]))
  {
    var n := |snap| - 1;
    assert snap[..n][..n - 1] == snap[..n - 1] && snap[..n][n - 1] == snap[n - 1];
  }

  /** No file that has to move meets a target at which both tries fail. */
  predicate Renamable(snap: seq<Option<Bytes>>, first: set<nat>, second: set<nat>) {
    RenamableFrom(snap, 0, first, second)
  }

  /** The same for the targets above a place. */
  predicate RenamableFrom(snap: seq<Option<Bytes>>, place: nat, first: set<nat>, second: set<nat>) {
    forall i: nat :: place < i < |snap| && snap[i - 1].Some? ==> i !in first || i !in second
  }

  lemma {:induction false} NextTarget(snap: seq<Option<Bytes>>, i: nat, first: set<nat>, second: set<nat>)
    requires 0 < i < |snap| && RenamableFrom(snap, i, first, second)
    ensures if snap[i - 1].Some? ==> i !in first || i !in second then RenamableFrom(snap, i - 1, first, second)
            else !RenamableFrom(snap, 0, first, second)
  {
  }

  /** It gives up the oldest file and loses the newest; all between them is kept in order. */
  lemma {:induction false} StoppingLosesTheNewest(snap: seq<Option<Bytes>>, i: nat)
    requires 0 < i < |snap| && snap[i - 1].Some?
    ensures Joined(snap) == GivenUp(snap) + Joined(StoppedAt(snap, i)) + Content(snap[0])
  {
    HalfKeeps(snap, i);
    NewestEmptied(HalfShifted(snap, i)[i := None]);
    assert HalfShifted(snap, i)[i := None][0] == snap[0];
    Associate(GivenUp(snap), Joined(StoppedAt(snap, i)), Content(snap[0]));
  }

  lemma {:induction false} Associate(a: Bytes, b: Bytes, c: Bytes)
    ensures a + (b + c) == a + b + c
  {
  }

  lemma {:induction false} NewestEmptied(snap: seq<Option<Bytes>>)
    requires snap != []
    ensures Joined(snap) == Joined(snap[0 := Some([])]) + Content(snap[0])
  {
    var emptied := snap[0 := Some([])];
    NewestGrows(emptied, Content(snap[0]));
    assert [] + Content(snap[0]) == Content(snap[0]);
    EmptyFirst(snap, emptied[0 := Some(Content(emptied[0]) + Content(snap[0]))]);
  }

  /** A missing file and an empty one hold the same. */
  lemma {:induction false} EmptyFirst(a: seq<Option<Bytes>>, b: seq<Option<Bytes>>)
    requires |a| == |b| && a != [] && Content(a[0]) == Content(b[0]) && a[1..] == b[1..]
    ensures Joined(a) == Joined(b)
  {
    var n := |a| - 1;
    assert n > 0 ==> a[n] == a[1..][n - 1] && b[n] == b[1..][n - 1];
    if n > 0 {
      assert a[..n][1..] == a[1..][..n - 1] && b[..n][1..] == b[1..][..n - 1];
      EmptyFirst(a[..n], b[..n]);
    } else {
      assert |a[..n]| == |b[..n]| == 0;
    }
  }

  lemma {:induction false} StoppedSuffix(snap: seq<Option<Bytes>>, i: nat, written: Bytes)
    requires 0 < i < |snap| && snap[i - 1].Some? && IsSuffix(Joined(snap), written)
    ensures |Content(snap[0])| <= |written|
    ensures IsSuffix(Joined(StoppedAt(snap, i)), written[..|written| - |Content(snap[0])|])
  {
    StoppedSuffixOf(snap, i, written, GivenUp(snap), Joined(StoppedAt(snap, i)), Content(snap[0]));
  }

  lemma {:induction false} StoppedSuffixOf(
    snap: seq<Option<Bytes>>, i: nat, written: Bytes, oldest: Bytes, kept: Bytes, newest: Bytes)
    requires 0 < i < |snap| && snap[i - 1].Some? && IsSuffix(Joined(snap), written)
    requires oldest == GivenUp(snap) && kept == Joined(StoppedAt(snap, i)) && newest == Content(snap[0])
    ensures |newest| <= |written| && IsSuffix(kept, written[..|written| - |newest|])
  {
    StoppingLosesTheNewest(snap, i);
    SuffixWithoutEnd(Joined(snap), oldest, kept, newest, written);
  }

  function Renamed(files: map<string, Bytes>, src: string, target: string): map<string, Bytes>
    requires src in files
  {
    (files - {src})[target := files[src]]
  }

  lemma {:induction false} RenameMovesOne(files: map<string, Bytes>, names: seq<string>, i: nat)
    requires Distinct(names) && 0 < i < |names| && names[i - 1] in files
    ensures Snapshot(Renamed(files, names[i - 1], names[i]), names)
         == Snapshot(files, names)[i := Get(files, names[i - 1])][i - 1 := None]
    ensures OthersStay(files, Renamed(files, names[i - 1], names[i]), names)
  {
  }

  lemma {:induction false} RemoveChangesOne(files: map<string, Bytes>, names: seq<string>, i: nat)
    requires Distinct(names) && i < |names|
    ensures Snapshot(files - {names[i]}, names) == Snapshot(files, names)[i := None]
    ensures OthersStay(files, files - {names[i]}, names)
  {
  }

  lemma {:induction false} OthersAgain(
    before: map<string, Bytes>, files: map<string, Bytes>, names: seq<string>, bytes: Bytes)
    requires names != [] && OthersStay(before, files, names)
    ensures OthersStay(before, files[names[0] := bytes], names)
  {
  }

  lemma {:induction false} WriteChangesOne(files: map<string, Bytes>, names: seq<string>, bytes: Bytes)
    requires Distinct(names) && names != []
    ensures Snapshot(files[names[0] := bytes], names) == Snapshot(files, names)[0 := Some(bytes)]
    ensures OthersStay(files, files[names[0] := bytes], names)
  {
  }

  // ---------------------------------------------------------------------------------------------
  // The sink

  class RotatingFileSink {
    const baseFilename: string
    const maxSize: nat
    const maxFiles: nat
    var currentSize: nat
    var files: map<string, Bytes>
    /** The names the sink may use, from the newest file to the oldest. */
    ghost const names: seq<string>
    /** What the files held when the sink was opened, followed by every message. */
    ghost var written: Bytes

    ghost predicate Valid()
      reads this
    {
      && Named()
      && baseFilename in files
      && currentSize == |files[baseFilename]|
      && IsSuffix(Stored(files, names), written)
    }

    ghost predicate Named()
      reads this
    {
      maxSize > 0 && names == Names(baseFilename, maxFiles)
    }

    constructor (files: map<string, Bytes>, baseFilename: string, maxSize: nat, maxFiles: nat)
      requires 0 < maxSize && maxFiles <= MAX_FILES
      ensures Valid() && written == Stored(files, names) == Stored(this.files, names)
      ensures this.baseFilename == baseFilename && this.maxSize == maxSize && this.maxFiles == maxFiles
      ensures OthersStay(files, this.files, names) && currentSize == |Content(Get(files, baseFilename))|
      ensures baseFilename in files ==> this.files == files
    {
      this.baseFilename := baseFilename;
      this.maxSize := maxSize;
      this.maxFiles := maxFiles;
      this.files := if baseFilename in files then files else files[baseFilename := []];
      this.currentSize := if baseFilename in files then |files[baseFilename]| else 0;
      this.names := Names(baseFilename, maxFiles);
      this.written := Stored(files, Names(baseFilename, maxFiles));
      new;
      NamesAreDistinct(baseFilename, maxFiles);
      Opened(files, names);
    }

    /** The files of the sink as they are. */
    ghost function Snap(): (snap: seq<Option<Bytes>>)
      requires Named()
      reads this
      ensures |snap| == maxFiles + 1
    {
      Snapshot(files, names)
    }

    /**
     `first` and `second` are the targets to which renaming fails at the first try and at the second. The rotation stops
     at the first target at which both fail.
     */
    method Rotate(first: set<nat>, second: set<nat>) returns (ok: bool)
      requires Named() && baseFilename in files && IsSuffix(Stored(files, names), written)
      modifies `files, `currentSize, `written
      ensures ok == Renamable(old(Snap()), first, second)
      ensures baseFilename in files && files[baseFilename] == [] && IsSuffix(Stored(files, names), written)
      ensures ok ==> Rotated(old(files), files, names) && written == old(written) && currentSize == old(currentSize)
      ensures !ok ==> OthersStay(old(files), files, names) && currentSize == 0
                      && |old(files[baseFilename])| <= |old(written)|
                      && written == old(written)[..|old(written)| - |old(files[baseFilename])|]
    {
      ghost var before, snap := files, Snap();
      ghost var stop;
      ok, stop := MoveAll(first, second, snap, before);
      if ok {
        FinishRotation(snap, before);
      } else {
        StopRotation(snap, stop, before);
      }
    }

    /** The descending loop; `stop` is the target at which it stopped. */
    method MoveAll(first: set<nat>, second: set<nat>, ghost snap: seq<Option<Bytes>>, ghost before: map<string, Bytes>)
      returns (ok: bool, ghost stop: nat)
      requires Named() && Snap() == snap && files == before
      modifies `files
      ensures ok == RenamableFrom(snap, 0, first, second) && OthersStay(before, files, names)
      ensures ok ==> Snap() == HalfShifted(snap, 0)
      ensures !ok ==> 0 < stop <= maxFiles && snap[stop - 1].Some? && Snap() == HalfShifted(snap, stop)[stop := None]
    {
      ShiftEnds(snap);
      var i: nat := maxFiles;
      stop := 0;
      while i > 0
        invariant i <= maxFiles
        invariant Snap() == HalfShifted(snap, i) && OthersStay(before, files, names)
        invariant RenamableFrom(snap, i, first, second)
      {
        NextTarget(snap, i, first, second);
        var moved := MoveUp(i, i !in first, i !in second, snap, before);
        if !moved {
          return false, i;
        }
        i := i - 1;
      }
      return true, 0;
    }

    /** One step of the loop: the file below place `i`, if there is one, takes that place. */
    method MoveUp(i: nat, first: bool, second: bool, ghost snap: seq<Option<Bytes>>, ghost before: map<string, Bytes>)
      returns (ok: bool)
      requires Named() && |snap| == maxFiles + 1 && 0 < i <= maxFiles
      requires Snap() == HalfShifted(snap, i) && OthersStay(before, files, names)
      modifies `files
      ensures ok <==> (snap[i - 1].Some? ==> first || second)
      ensures Snap() == if ok then HalfShifted(snap, i - 1) else HalfShifted(snap, i)[i := None]
      ensures OthersStay(before, files, names)
    {
      NamesAreDistinct(baseFilename, maxFiles);
      var src := CalcFilename(baseFilename, i - 1);
      assert src == names[i - 1];
      ShiftStep(snap, i);
      assert Snap()[i - 1] == Get(files, src);
      ok := true;
      if src in files {
        var target := CalcFilename(baseFilename, i);
        assert target == names[i];
        RenameMovesOne(files, names, i);
        RemoveChangesOne(files, names, i);
        ok := RenameOrRetry(src, target, first, second);
      }
    }

    /** The base file starts afresh when all files have moved up. */
    method FinishRotation(ghost snap: seq<Option<Bytes>>, ghost before: map<string, Bytes>)
      requires Named() && |snap| == maxFiles + 1 && Snap() == HalfShifted(snap, 0) && IsSuffix(Joined(snap), written)
      requires Snapshot(before, names) == snap && OthersStay(before, files, names)
      modifies `files
      ensures baseFilename in files && files[baseFilename] == [] && Rotated(before, files, names)
      ensures IsSuffix(Stored(files, names), written)
    {
      OthersAgain(before, files, names, []);
      NamesAreDistinct(baseFilename, maxFiles);
      ShiftEnds(snap);
      WriteChangesOne(files, names, []);
      Reopen();
      OnlyTheOldestIsGivenUp(snap);
      SuffixOfSuffix(GivenUp(snap), Stored(files, names), written);
    }

    /** What `Rotate` does when a rename has failed twice: the newest file starts afresh. */
    method StopRotation(ghost snap: seq<Option<Bytes>>, ghost i: nat, ghost before: map<string, Bytes>)
      requires Named() && |snap| == maxFiles + 1 && 0 < i <= maxFiles && snap[i - 1].Some?
      requires Snap() == HalfShifted(snap, i)[i := None] && IsSuffix(Joined(snap), written)
      requires OthersStay(before, files, names)
      modifies `files, `currentSize, `written
      ensures baseFilename in files && files[baseFilename] == [] && OthersStay(before, files, names)
      ensures currentSize == 0 && IsSuffix(Stored(files, names), written)
      ensures |Content(snap[0])| <= |old(written)| && written == old(written)[..|old(written)| - |Content(snap[0])|]
    {
      OthersAgain(before, files, names, []);
      NamesAreDistinct(baseFilename, maxFiles);
      WriteChangesOne(files, names, []);
      StoppedSuffix(snap, i, written);
      Reopen();
      currentSize := 0;
      assert Snap() == StoppedAt(snap, i);
      written := written[..|written| - |Content(snap[0])|];
    }

    /** Removes the target if there is one, then renames. */
    method RenameFile(src: string, target: string, works: bool) returns (ok: bool)
      requires src in files && src != target
      modifies `files
      ensures ok == works
      ensures files == if ok then Renamed(old(files), src, target) else old(files) - {target}
    {
      files := files - {target};
      if works {
        files := (files - {src})[target := files[src]];
      }
      ok := works;
    }

    /** A failed renaming is tried once more. */
    method RenameOrRetry(src: string, target: string, first: bool, second: bool) returns (ok: bool)
      requires src in files && src != target
      modifies `files
      ensures ok == (first || second)
      ensures files == if ok then Renamed(old(files), src, target) else old(files) - {target}
    {
      ok := RenameFile(src, target, first);
      if !ok {
        ok := RenameFile(src, target, second);
      }
    }

    /** Opens the base file truncated. */
    method Reopen()
      modifies `files
      ensures files == old(files)[baseFilename := []]
    {
      files := files[baseFilename := []];
    }

    /** When a rename fails the message is lost with the newest file, and the caller gets an exception. */
    method SinkIt(message: Bytes, first: set<nat>, second: set<nat>) returns (ok: bool)
      requires Valid()
      modifies `files, `currentSize, `written
      ensures Valid()
      ensures var rotates := old(currentSize) + |message| > maxSize && old(currentSize) > 0;
              && (ok <==> rotates ==> Renamable(old(Snap()), first, second))
              && (ok && rotates ==> files[baseFilename] == message
                                    && Rotated(old(files), files[baseFilename := []], names))
              && (ok && !rotates ==> files == old(files)[baseFilename := old(files)[baseFilename] + message])
      ensures ok ==> written == old(written) + message && (currentSize <= maxSize || files[baseFilename] == message)
      ensures !ok ==> files[baseFilename] == [] && OthersStay(old(files), files, names)
                      && old(currentSize) <= |old(written)|
                      && written == old(written)[..|old(written)| - old(currentSize)]
    {
      NamesAreDistinct(baseFilename, maxFiles);
      var newSize := currentSize + |message|;
      if newSize > maxSize {
        if |files[baseFilename]| > 0 {
          var rotated := Rotate(first, second);
          if !rotated {
            return false;
          }
          newSize := |message|;
        }
      }
      ghost var before, log := files, written;
      files := files[baseFilename := files[baseFilename] + message];
      currentSize := newSize;
      written := written + message;
      Appended(before, names, log, message);
      return true;
    }
  }

  lemma {:induction false} FrontGrows(snap: seq<Option<Bytes>>, newest: Option<Bytes>)
    requires |snap| > 1
    ensures var r, n := snap[0 := newest], |snap| - 1;
            r[..n] == snap[..n][0 := newest] && r[n] == snap[n] && snap[..n][0] == snap[0]
  {
  }

  lemma {:induction false} NewestGrows(snap: seq<Option<Bytes>>, more: Bytes)
    requires snap != []
    ensures Joined(snap[0 := Some(Content(snap[0]) + more)]) == Joined(snap) + more
  {
    var newest, n := Some(Content(snap[0]) + more), |snap| - 1;
    if n > 0 {
      NewestGrows(snap[..n], more);
      FrontGrows(snap, newest);
      Associate(Content(snap[n]), Joined(snap[..n]), more);
    } else {
      OneFile(snap);
      OneFile(snap[0 := newest]);
    }
  }

  lemma {:induction false} OneFile(snap: seq<Option<Bytes>>)
    requires |snap| == 1
    ensures Joined(snap) == Content(snap[0])
  {
    assert |snap[..0]| == 0;
  }

  /** Adding to the base file, which may be new, adds to what is stored. */
  lemma {:induction false} AppendingExtendsStored(files: map<string, Bytes>, names: seq<string>, more: Bytes)
    requires Distinct(names) && names != []
    ensures Stored(files[names[0] := Content(Get(files, names[0])) + more], names) == Stored(files, names) + more
  {
    WriteChangesOne(files, names, Content(Get(files, names[0])) + more);
    NewestGrows(Snapshot(files, names), more);
  }

  lemma {:induction false} Appended(files: map<string, Bytes>, names: seq<string>, log: Bytes, more: Bytes)
    requires Distinct(names) && names != [] && names[0] in files && IsSuffix(Stored(files, names), log)
    ensures var after := files[names[0] := files[names[0]] + more];
            && IsSuffix(Stored(after, names), log + more)
            && after[names[0] := []] == files[names[0] := []]
    ensures files[names[0]] == [] ==> files[names[0] := []] == files
  {
    AppendingExtendsStored(files, names, more);
    SuffixGrows(Stored(files, names), log, more);
  }

  /** Opening the base file for appending creates it if need be and adds nothing. */
  lemma {:induction false} Opened(files: map<string, Bytes>, names: seq<string>)
    requires Distinct(names) && names != []
    ensures names[0] !in files ==> Stored(files[names[0] := []], names) == Stored(files, names)
    ensures OthersStay(files, files[names[0] := []], names)
  {
    if names[0] !in files {
      AppendingExtendsStored(files, names, []);
      assert Content(Get(files, names[0])) + [] == [];
      assert Stored(files, names) + [] == Stored(files, names);
    }
    WriteChangesOne(files, names, []);
  }

  /** The sink can be opened on these files. */
  predicate CanOpen(files: map<string, Bytes>, baseFilename: string, maxSize: nat, maxFiles: nat, rotateOnOpen: bool,
                    first: set<nat>, second: set<nat>)
  {
    && 0 < maxSize && maxFiles <= 200000
    && (rotateOnOpen && Content(Get(files, baseFilename)) != [] ==>
          Renamable(Snapshot(files, Names(baseFilename, maxFiles)), first, second))
  }

  /** Opening a sink, which may rotate a base file that is not empty; a failure gives no sink. */
  method Open(files: map<string, Bytes>, baseFilename: string, maxSize: nat, maxFiles: nat, rotateOnOpen: bool,
              first: set<nat>, second: set<nat>)
    returns (sink: Option<RotatingFileSink>)
    ensures sink.Some? <==> CanOpen(files, baseFilename, maxSize, maxFiles, rotateOnOpen, first, second)
    ensures sink.Some? ==> fresh(sink.value) && sink.value.Valid()
                           && sink.value.written == Stored(files, Names(baseFilename, maxFiles))
                           && (rotateOnOpen ==> sink.value.currentSize == 0)
                           && (!rotateOnOpen ==> Stored(sink.value.files, Names(baseFilename, maxFiles))
                                                 == Stored(files, Names(baseFilename, maxFiles)))
  {
    if maxSize == 0 {
      return None;
    }
    if maxFiles > MAX_FILES {
      return None;
    }
    var s := new RotatingFileSink(files, baseFilename, maxSize, maxFiles);
    if rotateOnOpen && s.currentSize > 0 {
      var rotated := s.Rotate(first, second);
      if !rotated {
        return None;
      }
      s.currentSize := 0;
    }
    return Some(s);
  }
}

/** The local mirror: a directory tree on disk.  Errors are those the tree itself causes
    (a file where a folder is needed, a folder that is not empty); failing hardware is not
    modelled. */
module Files {
  import opened Paths

  type Byte = x: nat | x < 256

  type Bytes = seq<Byte>

  datatype Inode = Dir | Data(bytes: Bytes, mtime: int)

  type Disk = map<Path, Inode>

  datatype Errno = EROFS | EACCES | ENOENT | EEXIST | EISDIR | ENOTDIR | ENOTEMPTY | EINVAL | EBUSY | ENAMETOOLONG | EIO

  datatype Result<+T> = Ok(value: T) | Err(errno: Errno)

  const TRACKER_IGNORE := ".trackerignore"

  /** The mirror's own bookkeeping file, never visible through the mount. */
  predicate Reserved(p: Path) {
    p == [TRACKER_IGNORE]
  }

  /** The root exists, and everything else sits in a folder. */
  ghost predicate Rooted(d: Disk) {
    && ROOT in d && d[ROOT].Dir?
    && (forall p :: p in d && p != ROOT ==> Parent(p) in d && d[Parent(p)].Dir?)
  }

  /** And the bookkeeping file is a file. */
  ghost predicate Tree(d: Disk) {
    Rooted(d) && (forall p :: p in d && Reserved(p) ==> d[p].Data?)
  }

  lemma {:induction false} AncestorsAreFolders(d: Disk, p: Path, q: Path)
    requires Rooted(d) && p in d && Within(p, q)
    ensures q in d && (q != p ==> d[q].Dir?)
    decreases |p|
  {
    if p != q {
      AncestorsAreFolders(d, Parent(p), q);
    }
  }

  predicate IsFolder(d: Disk, p: Path) {
    p in d && d[p].Dir?
  }

  predicate IsFile(d: Disk, p: Path) {
    p in d && d[p].Data?
  }

  predicate HasChild(d: Disk, p: Path) {
    exists k :: k in d && k != p && Within(k, p)
  }

  function Zeros(n: nat): Bytes {
    seq(n, _ => 0)
  }

  function ClampTime(mtime: int): int {
    if mtime < 0 then 0 else mtime
  }

  /** `create_dir_all`: every missing folder on the way, unless a file is in the way. */
  function CreateDirAll(d: Disk, p: Path): Result<Disk> {
    if exists i :: 0 <= i <= |p| && IsFile(d, p[..i]) then Err(ENOTDIR)
    else Ok(d + Missing(d, p, |p| + 1))
  }

  /** The folders missing among the first `n` prefixes of `p`. */
  function Missing(d: Disk, p: Path, n: nat): Disk
    requires n <= |p| + 1
  {
    map i | 0 <= i < n && p[..i] !in d :: p[..i] := Dir
  }

  lemma MissingStep(d: Disk, p: Path, i: nat)
    requires i <= |p|
    ensures p[..i] in d ==> Missing(d, p, i + 1) == Missing(d, p, i)
    ensures p[..i] !in d ==> Missing(d, p, i + 1) == Missing(d, p, i)[p[..i] := Dir]
    ensures p[..i] !in Missing(d, p, i)
  {
    forall j | 0 <= j < i ensures p[..j] != p[..i] {
      assert |p[..j]| == j;
    }
  }

  /** One more folder on the way is there, or is made. */
  lemma MadeStep(d: Disk, made: Disk, p: Path, i: nat)
    requires i <= |p| && made == d + Missing(d, p, i)
    ensures p[..i] in made <==> p[..i] in d
    ensures (if p[..i] in made then made else made[p[..i] := Dir]) == d + Missing(d, p, i + 1)
  {
    MissingStep(d, p, i);
  }

  function EnsureDir(d: Disk, p: Path): Result<Disk> {
    CreateDirAll(if IsFile(d, p) then d - {p} else d, p)
  }

  function CreateFile(d: Disk, p: Path, now: int): Result<Disk> {
    match CreateDirAll(d, Parent(p))
    case Err(e) => Err(e)
    case Ok(d') => if p !in d' then Ok(d'[p := Data([], now)]) else if d'[p].Dir? then Err(EISDIR) else Ok(d')
  }

  function RemoveTree(d: Disk, p: Path): Disk {
    map k | k in d && !Within(k, p) :: d[k]
  }

  /** A sparse file standing in for content that has not been downloaded. */
  function Placeholder(d: Disk, p: Path, size: nat, mtime: int): Result<Disk> {
    match CreateDirAll(d, Parent(p))
    case Err(e) => Err(e)
    case Ok(d') => Ok(RemoveTree(d', p)[p := Data(Zeros(size), ClampTime(mtime))])
  }

  /** Move a staged download into place. */
  function Commit(d: Disk, p: Path, bytes: Bytes, mtime: int): Result<Disk> {
    match CreateDirAll(d, Parent(p))
    case Err(e) => Err(e)
    case Ok(d') => if IsFolder(d', p) then Err(EISDIR) else Ok(d'[p := Data(bytes, ClampTime(mtime))])
  }

  /** `data` written at `offset`, a gap being filled with zeros. */
  function Overlay(bytes: Bytes, offset: nat, data: Bytes): Bytes {
    if data == [] then bytes
    else
      var head := if offset <= |bytes| then bytes[..offset] else bytes + Zeros(offset - |bytes|);
      head + data + (if offset + |data| <= |bytes| then bytes[offset + |data|..] else [])
  }

  function Resized(bytes: Bytes, len: nat): Bytes {
    if len <= |bytes| then bytes[..len] else bytes + Zeros(len - |bytes|)
  }

  /** What pwrite() leaves of the old content: everything outside the written range, zeros in a
      gap; a write of nothing changes nothing. */
  ghost predicate Overlaid(was: Bytes, offset: nat, data: Bytes, now: Bytes) {
    if data == [] then now == was
    else
      && |now| == (if offset + |data| <= |was| then |was| else offset + |data|)
      && forall i :: 0 <= i < |now| ==>
           now[i] == if offset <= i < offset + |data| then data[i - offset] else ByteOrZero(was, i)
  }

  ghost predicate CutOrPadded(was: Bytes, len: nat, now: Bytes) {
    |now| == len && forall i :: 0 <= i < len ==> now[i] == ByteOrZero(was, i)
  }

  function BytesAt(d: Disk, p: Path): Bytes {
    if IsFile(d, p) then d[p].bytes else []
  }

  function ByteOrZero(bytes: Bytes, i: nat): Byte {
    if i < |bytes| then bytes[i] else 0
  }

  lemma OverlayBytes(bytes: Bytes, offset: nat, data: Bytes)
    ensures Overlaid(bytes, offset, data, Overlay(bytes, offset, data))
  {
  }

  lemma ResizedBytes(bytes: Bytes, len: nat)
    ensures CutOrPadded(bytes, len, Resized(bytes, len))
  {
  }

  function Rewrite(d: Disk, p: Path, change: Bytes -> Bytes, now: int): Result<Disk> {
    match CreateDirAll(d, Parent(p))
    case Err(e) => Err(e)
    case Ok(d') =>
      if p !in d' then Ok(d'[p := Data(change([]), now)])
      else if d'[p].Dir? then Err(EISDIR)
      else Ok(d'[p := Data(change(d'[p].bytes), now)])
  }

  function WriteAt(d: Disk, p: Path, offset: nat, data: Bytes, now: int): Result<Disk> {
    Rewrite(d, p, (b: Bytes) => Overlay(b, offset, data), now)
  }

  function Truncate(d: Disk, p: Path, len: nat, now: int): Result<Disk> {
    Rewrite(d, p, (b: Bytes) => Resized(b, len), now)
  }

  /** Only files carry a modification time here; that of a folder is not modelled. */
  function SetMtime(d: Disk, p: Path, mtime: int): Disk {
    if IsFile(d, p) then d[p := Data(d[p].bytes, ClampTime(mtime))] else d
  }

  function RemoveFile(d: Disk, p: Path): Result<Disk> {
    if p !in d then Err(ENOENT) else if d[p].Dir? then Err(EISDIR) else Ok(d - {p})
  }

  /** Remove an empty directory. */
  function RemoveDir(d: Disk, p: Path): Result<Disk> {
    if p !in d then Err(ENOENT)
    else if !d[p].Dir? then Err(ENOTDIR)
    else if HasChild(d, p) then Err(ENOTEMPTY)
    else Ok(d - {p})
  }

  /** `rename(2)`: the subtree at `from` replaces a file, or an empty directory, at `to`. */
  function RenameDisk(d: Disk, from: Path, to: Path): Result<Disk> {
    match CreateDirAll(d, Parent(to))
    case Err(e) => Err(e)
    case Ok(d') =>
      if from !in d' then Err(ENOENT)
      else if from == to then Ok(d')
      else if Within(to, from) then Err(EINVAL)
      else if IsFolder(d', to) && !d'[from].Dir? then Err(EISDIR)
      else if IsFile(d', to) && d'[from].Dir? then Err(ENOTDIR)
      else if HasChild(d', to) then Err(ENOTEMPTY)
      else Ok(MoveTree(d', from, to))
  }

  /** Everything at or below `to` is what was at or below `from`. */
  function MoveTree(d: Disk, from: Path, to: Path): Disk {
    (map k | k in d && !Within(k, from) && !Within(k, to) :: d[k])
    + MovedPart(d, from, to)
  }

  function MovedPart(d: Disk, from: Path, to: Path): Disk {
    var keys := set k | k in d && Within(k, from) :: Rebase(k, from, to);
    map j | j in keys && Within(j, to) && Rebase(j, to, from) in d :: d[Rebase(j, to, from)]
  }

  lemma MoveTreeAt(d: Disk, from: Path, to: Path)
    ensures forall j :: j in MoveTree(d, from, to) <==>
              if Within(j, to) then Rebase(j, to, from) in d else j in d && !Within(j, from)
    ensures forall j :: j in MoveTree(d, from, to) ==>
              MoveTree(d, from, to)[j] == if Within(j, to) then d[Rebase(j, to, from)] else d[j]
  {
    forall j | Within(j, to) && Rebase(j, to, from) in d ensures j in MovedPart(d, from, to) {
      RebaseLands(j, to, from);
      assert Rebase(Rebase(j, to, from), from, to) == j;
    }
  }

  /** Nothing but folders, or nothing at all, on the way to `p`. */
  predicate WayIsClear(d: Disk, p: Path) {
    forall i :: 0 <= i < |p| ==> !IsFile(d, p[..i])
  }

  lemma ClearWay(d: Disk, p: Path)
    requires p != ROOT
    ensures CreateDirAll(d, Parent(p)).Ok? <==> WayIsClear(d, p)
  {
    forall i | 0 <= i < |p| ensures Parent(p)[..i] == p[..i] {
    }
  }

  /** What `rename(2)` moves `from` onto: a name whose way is clear, with nothing there, a file
      under a file, or an empty folder under a folder. */
  predicate CanTake(d: Disk, from: Path, to: Path)
    requires from in d
  {
    WayIsClear(d, to) && (to in d ==> (d[to].Dir? <==> d[from].Dir?)) && !HasChild(d, to)
  }

  /** Making the folders on the way to `p` puts nothing at or below it. */
  lemma MadeAbove(d: Disk, p: Path, k: Path)
    requires p != ROOT && CreateDirAll(d, Parent(p)).Ok? && Within(k, p)
    ensures k in CreateDirAll(d, Parent(p)).value <==> k in d
  {
    assert k !in Missing(d, Parent(p), |Parent(p)| + 1);
  }

  lemma RenameTakes(d: Disk, from: Path, to: Path)
    requires from in d && to != ROOT && Apart(from, to)
    ensures RenameDisk(d, from, to).Ok? <==> CanTake(d, from, to)
    ensures CanTake(d, from, to) ==>
              CreateDirAll(d, Parent(to)).Ok?
              && RenameDisk(d, from, to) == Ok(MoveTree(CreateDirAll(d, Parent(to)).value, from, to))
  {
    ClearWay(d, to);
    if WayIsClear(d, to) {
      var d' := CreateDirAll(d, Parent(to)).value;
      forall k | Within(k, to) ensures k in d' <==> k in d {
        MadeAbove(d, to, k);
      }
      assert HasChild(d', to) <==> HasChild(d, to);
    }
  }

  /** Nothing has to be made on the way to `p`. */
  ghost predicate OpenFolder(d: Disk, p: Path) {
    CreateDirAll(d, p) == Ok(d)
  }

  lemma ExistingFolder(d: Disk, p: Path)
    requires Rooted(d) && IsFolder(d, p)
    ensures OpenFolder(d, p)
  {
    forall i | 0 <= i <= |p| ensures IsFolder(d, p[..i]) {
      AncestorsAreFolders(d, p, p[..i]);
      assert i == |p| ==> p[..i] == p;
    }
    assert Missing(d, p, |p| + 1) == map[];
    assert d + map[] == d;
  }

  /** Opening a folder for writing fails before anything is made. */
  lemma OpeningAFolderChangesNothing(d: Disk, p: Path)
    requires Rooted(d) && CreateDirAll(d, Parent(p)).Ok? && IsFolder(CreateDirAll(d, Parent(p)).value, p)
    ensures OpenFolder(d, Parent(p))
  {
    assert p != ROOT ==> p !in Missing(d, Parent(p), |Parent(p)| + 1);
    ExistingFolder(d, Parent(p));
  }
}

/** The mirror as an object: its tree is updated in place. */
module Mirror {
  import opened Paths
  import opened Tables
  import opened Files

  class Mirror {
    var disk: Disk

    constructor ()
      ensures disk == map[ROOT := Dir] && Tree(disk)
    {
      disk := map[ROOT := Dir];
    }

    /** `create_dir_all`, one folder at a time from the top. */
    method CreateDirAll(p: Path) returns (error: Option<Errno>)
      modifies this
      ensures Files.CreateDirAll(old(disk), p) == if error.None? then Ok(disk) else Err(error.value)
      ensures error.Some? ==> disk == old(disk)
    {
      if exists i :: 0 <= i <= |p| && IsFile(disk, p[..i]) {
        return Some(ENOTDIR);
      }
      var made := disk;
      var i := 0;
      while i <= |p|
        invariant 0 <= i <= |p| + 1
        invariant disk == old(disk) && made == disk + Missing(disk, p, i)
      {
        MadeStep(disk, made, p, i);
        if p[..i] !in made {
          made := made[p[..i] := Dir];
        }
        i := i + 1;
      }
      disk := made;
      return None;
    }

    method EnsureDir(p: Path) returns (error: Option<Errno>)
      modifies this
      ensures Files.EnsureDir(old(disk), p) == if error.None? then Ok(disk) else Err(error.value)
      ensures error.Some? && !IsFile(old(disk), p) ==> disk == old(disk)
    {
      if IsFile(disk, p) {
        disk := disk - {p};
      }
      error := CreateDirAll(p);
    }

    method CreateFile(p: Path, now: int) returns (error: Option<Errno>)
      modifies this
      ensures Files.CreateFile(old(disk), p, now) == if error.None? then Ok(disk) else Err(error.value)
      ensures old(disk).Keys <= disk.Keys
      ensures error.Some? && (OpenFolder(old(disk), Parent(p)) || Rooted(old(disk))) ==> disk == old(disk)
    {
      error := CreateDirAll(Parent(p));
      if error.Some? { return; }
      if p !in disk {
        disk := disk[p := Data([], now)];
      } else if disk[p].Dir? {
        if Rooted(old(disk)) {
          OpeningAFolderChangesNothing(old(disk), p);
        }
        error := Some(EISDIR);
      }
    }

    method MaterializePlaceholder(p: Path, size: nat, mtime: int) returns (error: Option<Errno>)
      modifies this
      ensures Files.Placeholder(old(disk), p, size, mtime) == if error.None? then Ok(disk) else Err(error.value)
    {
      error := CreateDirAll(Parent(p));
      if error.Some? { return; }
      RemoveTree(p);
      disk := disk[p := Data(Zeros(size), ClampTime(mtime))];
    }

    method Commit(p: Path, bytes: Bytes, mtime: int) returns (error: Option<Errno>)
      modifies this
      ensures Files.Commit(old(disk), p, bytes, mtime) == if error.None? then Ok(disk) else Err(error.value)
      ensures old(disk).Keys <= disk.Keys
      ensures error.Some? && (OpenFolder(old(disk), Parent(p)) || Rooted(old(disk))) ==> disk == old(disk)
    {
      error := CreateDirAll(Parent(p));
      if error.Some? { return; }
      if IsFolder(disk, p) {
        if Rooted(old(disk)) {
          OpeningAFolderChangesNothing(old(disk), p);
        }
        return Some(EISDIR);
      }
      disk := disk[p := Data(bytes, ClampTime(mtime))];
    }

    method OpenForWriting(p: Path, now: int) returns (error: Option<Errno>, bytes: Bytes)
      modifies this
      ensures error.Some? && Tree(old(disk)) ==> disk == old(disk)
      ensures Files.CreateDirAll(old(disk), Parent(p)).Err? ==>
                error == Some(Files.CreateDirAll(old(disk), Parent(p)).errno)
      ensures Files.CreateDirAll(old(disk), Parent(p)).Ok? ==>
                var d := Files.CreateDirAll(old(disk), Parent(p)).value;
                disk == d && error == (if IsFolder(d, p) then Some(EISDIR) else None) &&
                bytes == (if IsFile(d, p) then d[p].bytes else [])
    {
      bytes := [];
      error := CreateDirAll(Parent(p));
      if error.Some? { return; }
      if p in disk {
        if disk[p].Dir? {
          if Tree(old(disk)) {
            OpeningAFolderChangesNothing(old(disk), p);
          }
          return Some(EISDIR), [];
        }
        bytes := disk[p].bytes;
      }
    }

    method WriteAt(p: Path, offset: nat, data: Bytes, now: int) returns (error: Option<Errno>)
      modifies this
      ensures Files.WriteAt(old(disk), p, offset, data, now) == if error.None? then Ok(disk) else Err(error.value)
      ensures error.None? ==> IsFile(disk, p) && Overlaid(BytesAt(old(disk), p), offset, data, disk[p].bytes)
      ensures error.Some? && Tree(old(disk)) ==> disk == old(disk)
    {
      var bytes;
      error, bytes := OpenForWriting(p, now);
      if error.Some? { return; }
      OverlayBytes(bytes, offset, data);
      disk := disk[p := Data(Overlay(bytes, offset, data), now)];
    }

    method Truncate(p: Path, len: nat, now: int) returns (error: Option<Errno>)
      modifies this
      ensures Files.Truncate(old(disk), p, len, now) == if error.None? then Ok(disk) else Err(error.value)
      ensures error.None? ==> IsFile(disk, p) && CutOrPadded(BytesAt(old(disk), p), len, disk[p].bytes)
      ensures error.Some? && Tree(old(disk)) ==> disk == old(disk)
    {
      var bytes;
      error, bytes := OpenForWriting(p, now);
      if error.Some? { return; }
      ResizedBytes(bytes, len);
      disk := disk[p := Data(Resized(bytes, len), now)];
    }

    method SetMtime(p: Path, mtime: int)
      requires p in disk
      modifies this
      ensures disk == Files.SetMtime(old(disk), p, mtime)
    {
      if disk[p].Data? {
        disk := disk[p := disk[p].(mtime := ClampTime(mtime))];
      }
    }

    method RemoveFile(p: Path) returns (error: Option<Errno>)
      modifies this
      ensures Files.RemoveFile(old(disk), p) == if error.None? then Ok(disk) else Err(error.value)
      ensures error.Some? ==> disk == old(disk)
    {
      if p !in disk { return Some(ENOENT); }
      if disk[p].Dir? { return Some(EISDIR); }
      disk := disk - {p};
      return None;
    }

    method RemoveDir(p: Path) returns (error: Option<Errno>)
      modifies this
      ensures Files.RemoveDir(old(disk), p) == if error.None? then Ok(disk) else Err(error.value)
      ensures error.Some? ==> disk == old(disk)
    {
      if p !in disk { return Some(ENOENT); }
      if disk[p].Data? { return Some(ENOTDIR); }
      if HasChild(disk, p) { return Some(ENOTEMPTY); }
      disk := disk - {p};
      return None;
    }

    method RemoveTree(p: Path)
      modifies this
      ensures disk == Files.RemoveTree(old(disk), p)
    {
      disk := map k | k in disk && !Within(k, p) :: disk[k];
    }

    method Rename(from: Path, to: Path) returns (error: Option<Errno>)
      modifies this
      ensures Files.RenameDisk(old(disk), from, to) == if error.None? then Ok(disk) else Err(error.value)
      ensures error.Some? && OpenFolder(old(disk), Parent(to)) ==> disk == old(disk)
    {
      error := CreateDirAll(Parent(to));
      if error.Some? { return; }
      if from !in disk { return Some(ENOENT); }
      if from == to { return; }
      if Within(to, from) { return Some(EINVAL); }
      if IsFolder(disk, to) && disk[from].Data? { return Some(EISDIR); }
      if IsFile(disk, to) && disk[from].Dir? { return Some(ENOTDIR); }
      if HasChild(disk, to) { return Some(ENOTEMPTY); }
      disk := MoveTree(disk, from, to);
    }
  }
}

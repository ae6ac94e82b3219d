/** Reading a directory page by page: entry n of the stream is `.`, `..`, then the listing in
    order, and the kernel comes back with the offset of the last entry it got. */
module Paging {
  import opened Paths
  import opened Tables
  import opened Names
  import opened Inodes
  import opened Seqs

  datatype DirItem = DirItem(name: string, kind: Kind)

  /** What the kernel sees of an entry, its inode apart. */
  datatype Shown = Shown(name: string, kind: Kind)

  const DOTS := [Shown(".", Folder), Shown("..", Folder)]

  /** Unusable names are skipped. */
  function UsableOne(item: DirItem): seq<Shown> {
    if IsValidName(item.name) then [Shown(item.name, item.kind)] else []
  }

  function Usable(items: seq<DirItem>): seq<Shown> {
    if items == [] then [] else UsableOne(items[0]) + Usable(items[1..])
  }

  function Drop<T>(s: seq<T>, n: nat): seq<T> {
    if n <= |s| then s[n..] else []
  }

  function Take<T>(s: seq<T>, n: nat): seq<T> {
    if n <= |s| then s[..n] else s
  }

  /** What is still to come at an offset. */
  function Remaining(items: seq<DirItem>, offset: nat): seq<Shown> {
    Drop(DOTS, offset) + Usable(Drop(items, if offset >= 2 then offset - 2 else 0))
  }

  /** One reply, of at most `capacity` entries. */
  function Page(items: seq<DirItem>, offset: nat, capacity: nat): seq<Shown> {
    Take(Remaining(items, offset), capacity)
  }

  /** The first `n` replies one after the other; the next one starts where they left off. */
  function Replies<T>(page: (nat, nat) -> seq<T>, capacities: seq<nat>, n: nat): seq<T>
    requires n <= |capacities|
  {
    if n == 0 then []
    else
      var before := Replies(page, capacities, n - 1);
      before + page(|before|, capacities[n - 1])
  }

  function Pager(items: seq<DirItem>): (nat, nat) -> seq<Shown> {
    (offset: nat, capacity: nat) => Page(items, offset, capacity)
  }

  function ReadAll(items: seq<DirItem>, capacities: seq<nat>): seq<Shown> {
    Replies(Pager(items), capacities, |capacities|)
  }

  ghost predicate RoomForOne(capacities: seq<nat>) {
    forall i :: 0 <= i < |capacities| ==> capacities[i] >= 1
  }

  /** The kernel reads until a reply is empty. */
  predicate Finished(items: seq<DirItem>, capacities: seq<nat>) {
    Remaining(items, |ReadAll(items, capacities)|) == []
  }

  function Expected(items: seq<DirItem>): seq<Shown> {
    DOTS + Usable(items)
  }

  /** No unusable name comes before a usable one. */
  predicate Tidy(items: seq<DirItem>) {
    forall i, j :: 0 <= i < j < |items| && IsValidName(items[j].name) ==> IsValidName(items[i].name)
  }

  lemma {:induction false} UsableShape(items: seq<DirItem>)
    ensures |Usable(items)| <= |items|
    ensures Usable(items) == [] <==> forall i :: 0 <= i < |items| ==> !IsValidName(items[i].name)
    ensures |Usable(items)| == |items| <==> forall i :: 0 <= i < |items| ==> IsValidName(items[i].name)
  {
    if items != [] {
      UsableShape(items[1..]);
      assert forall i :: 0 <= i < |items[1..]| ==> items[1..][i] == items[i + 1];
      if Usable(items) == [] {
        forall i | 0 <= i < |items| ensures !IsValidName(items[i].name) {
          assert i > 0 ==> items[1..][i - 1] == items[i];
        }
      }
      if |Usable(items)| == |items| {
        forall i | 0 <= i < |items| ensures IsValidName(items[i].name) {
          assert i > 0 ==> items[1..][i - 1] == items[i];
        }
      }
    }
  }

  /** The usable entries are those with a valid name, in order, each under its own name and kind. */
  lemma UsableAt(items: seq<DirItem>, i: nat)
    requires i < |items| && IsValidName(items[i].name)
    ensures |Usable(items[..i])| < |Usable(items)|
    ensures Usable(items)[|Usable(items[..i])|].name == items[i].name
    ensures Usable(items)[|Usable(items[..i])|].kind == items[i].kind
  {
    assert items == items[..i] + items[i..];
    UsableJoin(items[..i], items[i..]);
  }

  lemma {:induction false} UsableJoin(a: seq<DirItem>, b: seq<DirItem>)
    ensures Usable(a + b) == Usable(a) + Usable(b)
    decreases |a|
  {
    if a == [] {
      Empty(b);
      Empty(Usable(b));
    } else {
      Tail(a, b);
      UsableJoin(a[1..], b);
      Assoc(UsableOne(a[0]), Usable(a[1..]), Usable(b));
    }
  }

  /** After a usable name only usable ones came before. */
  lemma TidyHead(items: seq<DirItem>, skip: nat)
    requires Tidy(items) && skip <= |items| && Usable(items[skip..]) != []
    ensures |Usable(items[..skip])| == skip
  {
    UsableShape(items[skip..]);
    UsableShape(items[..skip]);
    var j :| 0 <= j < |items[skip..]| && IsValidName(items[skip..][j].name);
    assert items[skip..][j] == items[skip + j];
  }

  lemma TidyTail(items: seq<DirItem>, skip: nat)
    requires Tidy(items) && skip <= |items|
    ensures Usable(items[skip..]) == Drop(Usable(items), skip)
  {
    var a, b := Usable(items[..skip]), Usable(items[skip..]);
    Cut(items, skip);
    UsableJoin(items[..skip], items[skip..]);
    UsableShape(items[..skip]);
    Halves(a, b);
    if b != [] {
      TidyHead(items, skip);
    } else {
      Empty(a);
    }
  }

  lemma DropJoin<T>(a: seq<T>, b: seq<T>, n: nat)
    ensures Drop(a + b, n) == if n <= |a| then Drop(a, n) + b else Drop(b, n - |a|)
  {
  }

  /** With tidy names, offset n is entry n. */
  lemma RemainingIsRest(items: seq<DirItem>, offset: nat)
    requires Tidy(items)
    ensures Remaining(items, offset) == Drop(Expected(items), offset)
  {
    DropJoin(DOTS, Usable(items), offset);
    if offset >= 2 {
      assert Drop(DOTS, offset) == [];
      if offset - 2 <= |items| {
        TidyTail(items, offset - 2);
      } else {
        UsableShape(items);
      }
    }
  }

  /** Offset n is entry n of the stream `s`. */
  ghost predicate Streams<T(!new)>(page: (nat, nat) -> seq<T>, s: seq<T>) {
    forall offset: nat, n: nat :: page(offset, n) == Take(Drop(s, offset), n)
  }

  lemma TidyStreams(items: seq<DirItem>)
    requires Tidy(items)
    ensures Streams(Pager(items), Expected(items))
  {
    forall offset: nat, n: nat ensures Pager(items)(offset, n) == Take(Drop(Expected(items), offset), n) {
      RemainingIsRest(items, offset);
    }
  }

  lemma NextReply<T(!new)>(page: (nat, nat) -> seq<T>, s: seq<T>, read: seq<T>, n: nat)
    requires Streams(page, s) && |read| <= |s| && read == s[..|read|]
    ensures var next := read + page(|read|, n);
            |next| <= |s| && next == s[..|next|] && (n > 0 ==> |next| > |read| || next == s)
  {
    assert page(|read|, n) == Take(Drop(s, |read|), n);
  }

  lemma {:induction false} StreamReads<T(!new)>(page: (nat, nat) -> seq<T>, s: seq<T>, capacities: seq<nat>, n: nat)
    requires Streams(page, s) && n <= |capacities|
    ensures |Replies(page, capacities, n)| <= |s| && Replies(page, capacities, n) == s[..|Replies(page, capacities, n)|]
    ensures RoomForOne(capacities) ==> |Replies(page, capacities, n)| >= if n <= |s| then n else |s|
  {
    if n > 0 {
      StreamReads(page, s, capacities, n - 1);
      NextReply(page, s, Replies(page, capacities, n - 1), capacities[n - 1]);
    }
  }

  /** Paging shows `.`, `..` and every usable item exactly once and in order, whatever the page
      sizes, exactly when no unusable name comes before a usable one.  (Otherwise entries are
      shown again, because the offset does not count the skipped name.) */
  lemma PagingIsLossless(items: seq<DirItem>, capacities: seq<nat>)
    requires Finished(items, capacities)
    ensures ReadAll(items, capacities) == Expected(items) <==> Tidy(items)
  {
    if Tidy(items) {
      TidyStreams(items);
      StreamReads(Pager(items), Expected(items), capacities, |capacities|);
      RemainingIsRest(items, |ReadAll(items, capacities)|);
    }
    if ReadAll(items, capacities) == Expected(items) {
      LosslessIsTidy(items);
    }
  }

  lemma UsableFirst(items: seq<DirItem>)
    requires Usable(Drop(items, |Usable(items)|)) == []
    ensures Tidy(items)
  {
    var v := |Usable(items)|;
    UsableShape(items);
    var head, tail := items[..v], items[v..];
    Cut(items, v);
    UsableJoin(head, tail);
    Empty(Usable(head));
    UsableShape(head);
    UsableShape(tail);
    forall i, j | 0 <= i < j < |items| && IsValidName(items[j].name) ensures IsValidName(items[i].name) {
      assert items[j] == (head + tail)[j] && items[i] == (head + tail)[i];
    }
  }

  lemma LosslessIsTidy(items: seq<DirItem>)
    requires Remaining(items, |Expected(items)|) == []
    ensures Tidy(items)
  {
    assert |Expected(items)| == |Usable(items)| + 2;
    UsableFirst(items);
  }

  /** Every reply that is not empty makes progress, so enough replies finish. */
  lemma EnoughReplies(items: seq<DirItem>, capacities: seq<nat>)
    requires Tidy(items) && RoomForOne(capacities) && |capacities| >= |Expected(items)|
    ensures Finished(items, capacities) && ReadAll(items, capacities) == Expected(items)
  {
    TidyStreams(items);
    StreamReads(Pager(items), Expected(items), capacities, |capacities|);
    RemainingIsRest(items, |ReadAll(items, capacities)|);
  }

  // ---- the repetition is real ---------------------------------------------------------------

  function ShownAs(item: DirItem): Shown {
    Shown(item.name, item.kind)
  }

  /** What is left, at the offsets the kernel comes back with, of a folder with an unusable name
      before a usable one. */
  lemma UntidyRemaining(bad: DirItem, good: DirItem)
    requires !IsValidName(bad.name) && IsValidName(good.name)
    ensures Usable([bad, good]) == [ShownAs(good)]
    ensures Remaining([bad, good], 0) == DOTS + [ShownAs(good)]
    ensures Remaining([bad, good], 3) == [ShownAs(good)] && Remaining([bad, good], 4) == []
  {
    var items := [bad, good];
    assert items[1..] == [good] && items[2..] == [] && [good][1..] == [];
    assert Usable([good]) == UsableOne(good) + Usable([]);
    assert Drop(DOTS, 0) == DOTS && Drop(items, 0) == items;
    assert Drop(DOTS, 3) == [] && Drop(items, 1) == [good];
    assert Drop(DOTS, 4) == [] && Drop(items, 2) == [];
  }

  lemma TwoReplies<T>(page: (nat, nat) -> seq<T>, first: nat, second: nat)
    ensures Replies(page, [first, second], 2) == page(0, first) + page(|page(0, first)|, second)
  {
    var capacities := [first, second];
    assert Replies(page, capacities, 0) == [];
    assert Replies(page, capacities, 1) == [] + page(0, first);
    Empty(page(0, first));
  }

  lemma WholePage(items: seq<DirItem>, offset: nat, capacity: nat)
    requires capacity >= |Remaining(items, offset)|
    ensures Pager(items)(offset, capacity) == Remaining(items, offset)
  {
  }

  /** Whatever the reply sizes, the usable item is shown twice: the offset after it counts three
      entries, and skipping one item by that count skips only the unusable name. */
  lemma EntryShownTwice(bad: DirItem, good: DirItem, first: nat, second: nat)
    requires !IsValidName(bad.name) && IsValidName(good.name) && first >= 3 && second >= 1
    ensures Expected([bad, good]) == DOTS + [ShownAs(good)]
    ensures ReadAll([bad, good], [first, second]) == DOTS + [ShownAs(good)] + [ShownAs(good)]
    ensures Finished([bad, good], [first, second])
  {
    UntidyRemaining(bad, good);
    WholePage([bad, good], 0, first);
    WholePage([bad, good], 3, second);
    TwoReplies(Pager([bad, good]), first, second);
  }

  lemma {:induction false} LengthOfCopies(n: nat)
    ensures Utf8Length(seq(n, _ => '\U{00E9}')) == 2 * n
  {
    if n > 0 {
      var s := seq(n, _ => '\U{00E9}');
      assert s[1..] == seq(n - 1, _ => '\U{00E9}');
      LengthOfCopies(n - 1);
    }
  }

  /** Such names exist: 256 bytes in 128 characters is unusable, yet a file system that counts a
      name's length in UTF-16 units, as NTFS and exFAT do, stores it. */
  lemma LongNamesAreUnusable(name: string)
    requires name == seq(128, _ => '\U{00E9}')
    ensures |name| == 128 && !IsValidName(name)
  {
    LengthOfCopies(128);
  }

  // ---- the loop -------------------------------------------------------------------------

  datatype Entry = Entry(ino: nat, offset: nat, shown: Shown)

  function ShownOf(entries: seq<Entry>): seq<Shown> {
    seq(|entries|, i requires 0 <= i < |entries| => entries[i].shown)
  }

  /** Entries are numbered on from the offset. */
  ghost predicate Numbered(entries: seq<Entry>, offset: nat) {
    forall i :: 0 <= i < |entries| ==> entries[i].offset == offset + i + 1
  }

  /** A child's entry carries the inode of its path. */
  ghost predicate Named(entries: seq<Entry>, dir: Path, table: Table) {
    forall i :: 0 <= i < |entries| && entries[i].shown !in DOTS ==>
      entries[i].ino in table.paths && table.paths[entries[i].ino] == dir + [entries[i].shown.name]
  }

  ghost predicate OnlyDots(entries: seq<Entry>) {
    forall i :: 0 <= i < |entries| ==> entries[i].shown in DOTS
  }

  class Reply {
    var entries: seq<Entry>
    const capacity: nat

    constructor (capacity: nat)
      ensures entries == [] && this.capacity == capacity
    {
      this.capacity, entries := capacity, [];
    }

    /** Full means the entry was not added. */
    method Add(ino: nat, offset: nat, shown: Shown) returns (full: bool)
      modifies this
      ensures full == (|old(entries)| >= capacity)
      ensures entries == if full then old(entries) else old(entries) + [Entry(ino, offset, shown)]
    {
      full := |entries| >= capacity;
      if !full { entries := entries + [Entry(ino, offset, shown)]; }
    }
  }

  lemma AssignedStays(t: Table, p: Path, entries: seq<Entry>, dir: Path)
    requires Sound(t) && Named(entries, dir, t)
    ensures Named(entries, dir, Assigned(t, p))
  {
  }

  class IcloudFs {
    const inodes: InodeTable

    constructor (inodes: InodeTable)
      ensures this.inodes == inodes
    {
      this.inodes := inodes;
    }

    method AddDots(ino: nat, parentIno: nat, offset: nat, reply: Reply) returns (full: bool)
      requires reply.entries == []
      modifies reply
      ensures var all := Drop(DOTS, offset);
              && ShownOf(reply.entries) == Take(all, reply.capacity) && Numbered(reply.entries, offset)
              && full == (reply.capacity < |all|) && OnlyDots(reply.entries)
    {
      var i := offset;
      full := false;
      while i < 2
        invariant offset <= i && (i <= 2 || i == offset) && !full
        invariant |reply.entries| == i - offset <= reply.capacity && Numbered(reply.entries, offset)
        invariant forall j :: 0 <= j < |reply.entries| ==> reply.entries[j].shown == DOTS[offset + j]
      {
        full := reply.Add(if i == 0 then ino else parentIno, i + 1, DOTS[i]);
        if full { return; }
        i := i + 1;
      }
    }

    method AddChild(dir: Path, item: DirItem, offset: nat, reply: Reply) returns (full: bool)
      requires inodes.Valid() && Numbered(reply.entries, offset) && Named(reply.entries, dir, inodes.View())
      modifies inodes, reply
      ensures inodes.Valid() && Numbered(reply.entries, offset) && Named(reply.entries, dir, inodes.View())
      ensures full == (|old(reply.entries)| >= reply.capacity)
      ensures ShownOf(reply.entries) ==
              if full then old(ShownOf(reply.entries)) else old(ShownOf(reply.entries)) + [Shown(item.name, item.kind)]
    {
      ghost var table, before := inodes.View(), reply.entries;
      var childIno := inodes.InoFor(dir + [item.name]);
      AssignedStays(table, dir + [item.name], before, dir);
      full := reply.Add(childIno, offset + |reply.entries| + 1, Shown(item.name, item.kind));
    }

    /** The reply is filled as far as position `i` of the listing. */
    ghost predicate Filling(dir: Path, items: seq<DirItem>, i: nat, offset: nat, reply: Reply, all: seq<Shown>,
                            full: bool)
      reads inodes, reply
    {
      && inodes.Valid() && |reply.entries| <= reply.capacity
      && Numbered(reply.entries, offset) && Named(reply.entries, dir, inodes.View())
      && Filled(ShownOf(reply.entries), Usable(Drop(items, i)), all, full, reply.capacity)
    }

    method AddNext(dir: Path, items: seq<DirItem>, i: nat, offset: nat, reply: Reply,
                   ghost all: seq<Shown>) returns (full: bool)
      requires i < |items| && Filling(dir, items, i, offset, reply, all, false)
      modifies inodes, reply
      ensures Filling(dir, items, if full then i else i + 1, offset, reply, all, full)
    {
      ghost var before := ShownOf(reply.entries);
      full := false;
      if IsValidName(items[i].name) {
        full := AddChild(dir, items[i], offset, reply);
      } else {
        Empty(before);
      }
      UsableStep(items, i);
      FillStep(before, UsableOne(items[i]), Usable(Drop(items, i + 1)), all, full, reply.capacity);
    }

    lemma FillingStarts(dir: Path, items: seq<DirItem>, i: nat, offset: nat, reply: Reply)
      requires inodes.Valid() && |reply.entries| <= reply.capacity
      requires Numbered(reply.entries, offset) && Named(reply.entries, dir, inodes.View())
      ensures Filling(dir, items, i, offset, reply, ShownOf(reply.entries) + Usable(Drop(items, i)), false)
    {
    }

    lemma FillingEnds(dir: Path, items: seq<DirItem>, i: nat, offset: nat, reply: Reply, all: seq<Shown>, full: bool)
      requires Filling(dir, items, i, offset, reply, all, full) && (i < |items| ==> full)
      ensures inodes.Valid() && Numbered(reply.entries, offset) && Named(reply.entries, dir, inodes.View())
      ensures ShownOf(reply.entries) == Take(all, reply.capacity)
    {
      FilledUp(ShownOf(reply.entries), Usable(Drop(items, i)), all, full, reply.capacity);
    }

    /** The items from position `start` on, until the reply is full. */
    method AddChildren(dir: Path, items: seq<DirItem>, start: nat, offset: nat, reply: Reply)
      requires inodes.Valid() && |reply.entries| <= reply.capacity
      requires Numbered(reply.entries, offset) && Named(reply.entries, dir, inodes.View())
      modifies inodes, reply
      ensures inodes.Valid() && Numbered(reply.entries, offset) && Named(reply.entries, dir, inodes.View())
      ensures ShownOf(reply.entries) == Take(old(ShownOf(reply.entries)) + Usable(Drop(items, start)), reply.capacity)
    {
      ghost var all := ShownOf(reply.entries) + Usable(Drop(items, start));
      var i, full := start, false;
      FillingStarts(dir, items, start, offset, reply);
      while i < |items| && !full
        invariant Filling(dir, items, i, offset, reply, all, full)
        decreases |items| - i, !full
      {
        full := AddNext(dir, items, i, offset, reply, all);
        if !full { i := i + 1; }
      }
      FillingEnds(dir, items, i, offset, reply, all, full);
    }

    /** Fill one reply from an offset on. */
    method ReadDir(dir: Path, ino: nat, items: seq<DirItem>, offset: nat, reply: Reply)
      requires inodes.Valid() && reply.entries == []
      modifies inodes, reply
      ensures inodes.Valid() && ShownOf(reply.entries) == Page(items, offset, reply.capacity)
      ensures Numbered(reply.entries, offset) && Named(reply.entries, dir, inodes.View())
    {
      var parentIno := inodes.InoFor(Parent(dir));
      var full := AddDots(ino, parentIno, offset, reply);
      if full {
        FullDots(items, offset, reply.capacity);
        return;
      }
      AddChildren(dir, items, if offset >= 2 then offset - 2 else 0, offset, reply);
    }
  }

  lemma UsableStep(items: seq<DirItem>, i: nat)
    requires i < |items|
    ensures Usable(Drop(items, i)) ==
            UsableOne(items[i]) + Usable(Drop(items, i + 1))
  {
    assert Drop(items, i)[0] == items[i] && Drop(items, i)[1..] == Drop(items, i + 1);
  }

  /** What the reply holds and what is still to come; once full, the reply is all that fits. */
  ghost predicate Filled(shown: seq<Shown>, more: seq<Shown>, all: seq<Shown>, full: bool, capacity: nat) {
    shown + more == all && (full ==> |shown| == capacity)
  }

  lemma FillStep(shown: seq<Shown>, next: seq<Shown>, more: seq<Shown>, all: seq<Shown>, full: bool, capacity: nat)
    requires shown + (next + more) == all && (full ==> |shown| == capacity)
    ensures full ==> Filled(shown, next + more, all, true, capacity)
    ensures !full ==> Filled(shown + next, more, all, false, capacity)
  {
    Assoc(shown, next, more);
  }

  lemma FilledUp(shown: seq<Shown>, more: seq<Shown>, all: seq<Shown>, full: bool, capacity: nat)
    requires Filled(shown, more, all, full, capacity) && |shown| <= capacity && (full || more == [])
    ensures shown == Take(all, capacity)
  {
    Halves(shown, more);
    Empty(shown);
  }

  lemma FullDots(items: seq<DirItem>, offset: nat, capacity: nat)
    requires capacity < |Drop(DOTS, offset)|
    ensures Page(items, offset, capacity) == Take(Drop(DOTS, offset), capacity)
  {
  }
}

/** iCloud as the in-memory drive models it: items by id, every change bumping the etag, a
    name already taken giving the newcomer a number. */
module Cloud {
  import opened Tables
  import opened Files
  import opened Search
  import opened Seqs

  datatype Item = Item(parent: Option<string>, name: string, kind: Kind, data: Bytes, etag: nat, modified: int)

  type Items = map<string, Item>

  const ROOT_ID := "FOLDER::com.apple.CloudDocs::root"

  function ItemId(kind: Kind, n: nat): string {
    (if kind == File then "FILE" else "FOLDER") + "::com.apple.CloudDocs::" + Decimal(n)
  }

  lemma IdsDiffer(kind: Kind, n: nat, kind': Kind, m: nat)
    ensures ItemId(kind, n) == ItemId(kind', m) ==> n == m
  {
    var a, b := if kind == File then "FILE" else "FOLDER", if kind' == File then "FILE" else "FOLDER";
    var mid := "::com.apple.CloudDocs::";
    if ItemId(kind, n) == ItemId(kind', m) {
      assert ItemId(kind, n)[1] == a[1] && ItemId(kind', m)[1] == b[1];
      assert a == b;
      assert ItemId(kind, n)[|a| + |mid|..] == Decimal(n) && ItemId(kind', m)[|a| + |mid|..] == Decimal(m);
      DecimalInjective(n, m);
    }
  }

  function Node(id: string, item: Item): RemoteNode {
    RemoteNode(id, Some("e" + Decimal(item.etag)), item.name, item.kind, |item.data|, item.modified)
  }

  // ---- names ------------------------------------------------------------------------

  predicate Taken(items: Items, parent: string, name: string) {
    exists id :: id in items && items[id].parent == Some(parent) && items[id].name == name
  }

  function LastDot(name: string): (i: int)
    ensures -1 <= i < |name|
    ensures i >= 0 ==> name[i] == '.'
  {
    if name == "" then -1
    else if name[|name| - 1] == '.' then |name| - 1
    else LastDot(name[..|name| - 1])
  }

  /** Name and extension; a leading or trailing dot makes no extension. */
  function SplitExtension(name: string): (r: (string, Option<string>))
    ensures |r.0| <= |name| && (r.1.Some? ==> |r.0| + 1 + |r.1.value| == |name|)
    ensures r.1.None? ==> r.0 == name
  {
    var dot := LastDot(name);
    if dot > 0 && dot + 1 < |name| then (name[..dot], Some(name[dot + 1..])) else (name, None)
  }

  function WithNumber(stem: string, ext: Option<string>, n: nat): string {
    if ext.Some? then stem + " " + Decimal(n) + "." + ext.value else stem + " " + Decimal(n)
  }

  /** The name tried at attempt `n`: itself, then `stem 2.ext`, `stem 3.ext`, ... */
  function Numbered(name: string, n: nat): string {
    if n == 1 then name else WithNumber(SplitExtension(name).0, SplitExtension(name).1, n)
  }

  lemma MiddleDiffers(stem: string, a: string, b: string, rest: string)
    requires a != b
    ensures stem + a + rest != stem + b + rest
  {
    var x, y := stem + a + rest, stem + b + rest;
    assert x[|stem|..|x| - |rest|] == a && y[|stem|..|y| - |rest|] == b;
  }

  lemma WithNumberDiffers(stem: string, ext: Option<string>, i: nat, j: nat)
    requires i != j
    ensures WithNumber(stem, ext, i) != WithNumber(stem, ext, j)
  {
    DecimalInjective(i, j);
    if ext.Some? {
      MiddleDiffers(stem + " ", Decimal(i), Decimal(j), "." + ext.value);
      Assoc(stem + " " + Decimal(i), ".", ext.value);
      Assoc(stem + " " + Decimal(j), ".", ext.value);
    } else {
      MiddleDiffers(stem + " ", Decimal(i), Decimal(j), "");
      Empty(stem + " " + Decimal(i));
      Empty(stem + " " + Decimal(j));
    }
  }

  lemma NumberedDiffer(name: string, i: nat, j: nat)
    requires 1 <= i < j
    ensures Numbered(name, i) != Numbered(name, j)
  {
    var stem, ext := SplitExtension(name).0, SplitExtension(name).1;
    if i == 1 {
      assert |WithNumber(stem, ext, j)| > |name|;
    } else {
      WithNumberDiffers(stem, ext, i, j);
    }
  }

  ghost predicate FirstFree(items: Items, parent: string, name: string, n: nat) {
    && n >= 1 && !Taken(items, parent, Numbered(name, n))
    && forall i :: 1 <= i < n ==> Taken(items, parent, Numbered(name, i))
  }

  ghost function NamesIn(items: Items): set<string> {
    set id | id in items :: items[id].name
  }

  /** Finitely many items cannot hold all the numbered names. */
  lemma FreeExists(items: Items, parent: string, name: string) returns (n: nat)
    ensures FirstFree(items, parent, name, n)
  {
    var f := (i: nat) => Numbered(name, i);
    forall i: nat, j: nat | 1 <= i < j ensures f(i) != f(j) {
      NumberedDiffer(name, i, j);
    }
    var free := Pigeonhole(f, NamesIn(items));
    assert forall id :: id in items ==> items[id].name in NamesIn(items);
    assert !Taken(items, parent, Numbered(name, free));
    n := LeastFree(items, parent, name, free);
  }

  lemma {:induction false} LeastFree(items: Items, parent: string, name: string, free: nat) returns (n: nat)
    requires free >= 1 && !Taken(items, parent, Numbered(name, free))
    ensures FirstFree(items, parent, name, n)
  {
    if i :| 1 <= i < free && !Taken(items, parent, Numbered(name, i)) {
      n := LeastFree(items, parent, name, i);
    } else {
      n := free;
    }
  }

  ghost function FreeName(items: Items, parent: string, name: string): (r: string)
    ensures !Taken(items, parent, r)
    ensures !Taken(items, parent, name) ==> r == name
  {
    var n := FreeNumber(items, parent, name);
    assert !Taken(items, parent, name) ==> !Taken(items, parent, Numbered(name, 1));
    Numbered(name, n)
  }

  ghost function FreeNumber(items: Items, parent: string, name: string): (n: nat)
    ensures FirstFree(items, parent, name, n)
  {
    assert exists n :: FirstFree(items, parent, name, n) by {
      var n := FreeExists(items, parent, name);
    }
    var n :| FirstFree(items, parent, name, n);
    n
  }

  // ---- the calls ----------------------------------------------------------------------

  ghost function Created(items: Items, n: nat, parent: string, name: string, kind: Kind, data: Bytes,
                         modified: int): Items {
    items[ItemId(kind, n) := Item(Some(parent), FreeName(items, parent, name), kind, data, 1, modified)]
  }

  /** Is `id` the item `top`, or inside it? */
  predicate Inside(items: Items, id: string, top: string, steps: nat)
    decreases steps
  {
    || id == top
    || (steps > 0 && id in items && items[id].parent.Some? && Inside(items, items[id].parent.value, top, steps - 1))
  }

  function Without(items: Items, top: string): Items {
    map id | id in items && !Inside(items, id, top, |items|) :: items[id]
  }

  lemma {:induction false} MoreSteps(items: Items, items': Items, id: string, top: string, n: nat, m: nat)
    requires n <= m && Inside(items, id, top, n) && forall x :: x in items ==> x in items' && items'[x] == items[x]
    ensures Inside(items', id, top, m)
    decreases n
  {
    if id != top {
      MoreSteps(items, items', items[id].parent.value, top, n - 1, m - 1);
    }
  }

  /** A way up from `x` either avoids `id` or passes it. */
  lemma {:induction false} AvoidsOrPasses(items: Items, x: string, top: string, id: string, n: nat)
    requires Inside(items, x, top, n)
    ensures Inside(items - {id}, x, top, n) || Inside(items, id, top, n)
    decreases n
  {
    if x != top && x != id {
      AvoidsOrPasses(items, items[x].parent.value, top, id, n - 1);
      if Inside(items, id, top, n - 1) {
        MoreSteps(items, items, id, top, n - 1, n);
      }
    }
  }

  /** However long the way up, there is one of at most as many steps as there are items. */
  lemma {:induction false} EnoughSteps(items: Items, id: string, top: string, n: nat)
    requires Inside(items, id, top, n)
    ensures Inside(items, id, top, |items|)
    decreases |items|, n
  {
    if id != top {
      var parent, rest := items[id].parent.value, items - {id};
      AvoidsOrPasses(items, parent, top, id, n - 1);
      assert |rest| == |items| - 1 by {
        assert rest.Keys == items.Keys - {id};
      }
      if Inside(rest, parent, top, n - 1) {
        EnoughSteps(rest, parent, top, n - 1);
        MoreSteps(rest, items, parent, top, |rest|, |items| - 1);
      } else {
        EnoughSteps(items, id, top, n - 1);
      }
    }
  }

  /** Permanent removal takes the item and exactly what is inside it: nothing that stays is in
      something that went, and whatever went was the item or in something that went. */
  lemma WithoutExactly(items: Items, top: string, id: string)
    ensures var rest := Without(items, top);
            && top !in rest && (id in rest ==> id in items && rest[id] == items[id])
            && (id in rest && items[id].parent.Some? ==>
                  items[id].parent.value != top && (items[id].parent.value in items ==> items[id].parent.value in rest))
            && (id in items && id !in rest && id != top ==>
                  items[id].parent.Some?
                  && (items[id].parent.value == top
                      || (items[id].parent.value in items && items[id].parent.value !in rest)))
  {
    var rest := Without(items, top);
    if id in items && id != top && items[id].parent.Some? {
      var parent := items[id].parent.value;
      if id in rest && Inside(items, parent, top, |items|) {
        assert Inside(items, id, top, |items| + 1);
        EnoughSteps(items, id, top, |items| + 1);
      }
      if id !in rest {
        MoreSteps(items, items, parent, top, |items| - 1, |items|);
      }
    }
  }

  /** What becomes of a call.  A service can also do the work and lose the answer. */
  datatype Fate = Works | Fails | LosesAnswer

  /** What the service was asked to do and reported done: content received, an item deleted. */
  datatype Event = Uploaded(parent: string, name: string, data: Bytes) | Removed(id: string)

  ghost predicate IsListingOf(nodes: seq<RemoteNode>, items: Items, folder: string) {
    && (forall n :: n in nodes ==> n.id in items && items[n.id].parent == Some(folder) && n == Node(n.id, items[n.id]))
    && (forall id :: id in items && items[id].parent == Some(folder) ==> Node(id, items[id]) in nodes)
  }

  class MemoryDrive {
    var items: Items
    var nextId: nat
    var calls: nat
    var done: seq<Event>
    const fate: nat -> Fate

    constructor (fate: nat -> Fate)
      ensures this.fate == fate && items == map[ROOT_ID := Item(None, "root", Folder, [], 1, 0)] && nextId == 1
    {
      this.fate := fate;
      items := map[ROOT_ID := Item(None, "root", Folder, [], 1, 0)];
      nextId, calls, done := 1, 0, [];
    }

    ghost predicate NeverFails() {
      forall n :: fate(n) == Works
    }

    method Enter() returns (f: Fate)
      modifies `calls
      ensures f == fate(old(calls))
    {
      f := fate(calls);
      calls := calls + 1;
    }

    /** Never overwrite: number the copy. */
    method Create(parent: string, name: string, kind: Kind, data: Bytes, modified: int)
      modifies `items, `nextId
      ensures nextId == old(nextId) + 1
      ensures items == Created(old(items), nextId, parent, name, kind, data, modified)
    {
      ghost var free := FreeNumber(items, parent, name);
      var n, unique := 1, name;
      while exists id :: id in items && items[id].parent == Some(parent) && items[id].name == unique
        invariant 1 <= n <= free && unique == Numbered(name, n)
        invariant forall i :: 1 <= i < n ==> Taken(items, parent, Numbered(name, i))
        decreases free - n
      {
        assert Taken(items, parent, Numbered(name, n));
        n := n + 1;
        var (stem, ext) := SplitExtension(name);
        unique := WithNumber(stem, ext, n);
      }
      assert !Taken(items, parent, Numbered(name, n));
      nextId := nextId + 1;
      items := items[ItemId(kind, nextId) := Item(Some(parent), unique, kind, data, 1, modified)];
    }

    method Root() returns (ok: bool)
      modifies `calls
      ensures NeverFails() ==> ok
    {
      var f := Enter();
      ok := f == Works;
    }

    method GetNode(id: string) returns (r: Option<RemoteNode>)
      modifies `calls
      ensures r.Some? ==> id in items && r.value == Node(id, items[id])
      ensures NeverFails() && id in items ==> r.Some?
    {
      var f := Enter();
      r := if f == Works && id in items then Some(Node(id, items[id])) else None;
    }

    method Children(folder: string) returns (r: Option<seq<RemoteNode>>)
      modifies `calls
      ensures r.Some? ==> IsListingOf(r.value, items, folder)
      ensures NeverFails() && folder in items ==> r.Some?
    {
      var f := Enter();
      if f != Works || folder !in items { return None; }
      var nodes: seq<RemoteNode> := [];
      var todo := set id | id in items && items[id].parent == Some(folder);
      while todo != {}
        invariant forall id :: id in todo ==> id in items && items[id].parent == Some(folder)
        invariant forall n :: n in nodes ==>
                    n.id in items && items[n.id].parent == Some(folder) && n == Node(n.id, items[n.id])
        invariant forall id :: id in items && items[id].parent == Some(folder) && id !in todo ==>
                    Node(id, items[id]) in nodes
        decreases todo
      {
        var id :| id in todo;
        nodes := nodes + [Node(id, items[id])];
        todo := todo - {id};
      }
      r := Some(nodes);
    }

    method Open(id: string) returns (r: Option<Bytes>)
      modifies `calls
      ensures r.Some? ==> id in items && r.value == items[id].data
      ensures NeverFails() && id in items ==> r.Some?
    {
      var f := Enter();
      r := if f == Works && id in items then Some(items[id].data) else None;
    }

    method Upload(parent: string, name: string, data: Bytes, mtime: int) returns (ok: bool)
      modifies this
      ensures ok ==> parent in old(items) && nextId == old(nextId) + 1
                     && items == Created(old(items), nextId, parent, name, File, data, mtime)
      ensures NeverFails() ==> (ok <==> parent in old(items))
      ensures NeverFails() && !ok ==> items == old(items) && nextId == old(nextId)
      ensures done == if ok then old(done) + [Uploaded(parent, name, data)] else old(done)
    {
      var f := Enter();
      if f == Fails || parent !in items { return false; }
      Create(parent, name, File, data, mtime);
      ok := f == Works;
      if ok { done := done + [Uploaded(parent, name, data)]; }
    }

    method CreateFolder(parent: string, name: string) returns (ok: bool)
      modifies `items, `nextId, `calls
      ensures ok ==> parent in old(items) && nextId == old(nextId) + 1
                     && items == Created(old(items), nextId, parent, name, Folder, [], 0)
      ensures NeverFails() ==> (ok <==> parent in old(items))
      ensures NeverFails() && !ok ==> items == old(items) && nextId == old(nextId)
    {
      var f := Enter();
      if f == Fails || parent !in items { return false; }
      Create(parent, name, Folder, [], 0);
      ok := f == Works;
    }

    /** Permanently, with everything inside, or into the trash. */
    method Delete(id: string, permanent: bool) returns (ok: bool)
      modifies `items, `calls, `done
      ensures ok ==> id in old(items)
                     && items == if permanent then Without(old(items), id)
                                 else old(items)[id := old(items)[id].(parent := Some("TRASH"))]
      ensures NeverFails() ==> (ok <==> id in old(items)) && (!ok ==> items == old(items))
      ensures done == if ok then old(done) + [Removed(id)] else old(done)
    {
      var f := Enter();
      if f == Fails || id !in items { return false; }
      if permanent {
        items := map k | k in items && !Inside(items, k, id, |items|) :: items[k];
      } else {
        items := items[id := items[id].(parent := Some("TRASH"))];
      }
      ok := f == Works;
      if ok { done := done + [Removed(id)]; }
    }

    method Rename(id: string, name: string) returns (ok: bool)
      modifies `items, `calls
      ensures ok ==> id in old(items)
                     && items == old(items)[id := old(items)[id].(name := name, etag := old(items)[id].etag + 1)]
      ensures NeverFails() ==> (ok <==> id in old(items)) && (!ok ==> items == old(items))
    {
      var f := Enter();
      if f == Fails || id !in items { return false; }
      items := items[id := items[id].(name := name, etag := items[id].etag + 1)];
      ok := f == Works;
    }

    method MoveTo(id: string, destination: string) returns (ok: bool)
      modifies `items, `calls
      ensures ok ==> id in old(items)
                     && var item := old(items)[id];
                        items == old(items)[id := item.(parent := Some(destination), etag := item.etag + 1)]
      ensures NeverFails() ==> (ok <==> id in old(items)) && (!ok ==> items == old(items))
    {
      var f := Enter();
      if f == Fails || id !in items { return false; }
      items := items[id := items[id].(parent := Some(destination), etag := items[id].etag + 1)];
      ok := f == Works;
    }
  }
}

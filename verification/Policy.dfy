/** File names Drive could hold, and the synchronisation boundary. */
module Names {
  import opened Seqs

  /** Bytes the character takes in UTF-8. */
  function Utf8Width(c: char): nat {
    if c as int < 0x80 then 1 else if c as int < 0x800 then 2 else if c as int < 0x1_0000 then 3 else 4
  }

  function Utf8Length(s: string): nat {
    if s == "" then 0 else Utf8Width(s[0]) + Utf8Length(s[1..])
  }

  lemma {:induction false} Utf8Join(a: string, b: string)
    ensures Utf8Length(a + b) == Utf8Length(a) + Utf8Length(b)
  {
    if a == "" {
      Empty(b);
    } else {
      Tail(a, b);
      Utf8Join(a[1..], b);
    }
  }

  /** One byte a character, and nothing a name must not contain. */
  predicate Plain(s: string) {
    forall i :: 0 <= i < |s| ==> s[i] as int < 0x80 && s[i] != '/' && s[i] != '\0'
  }

  lemma {:induction false} PlainLength(s: string)
    requires Plain(s)
    ensures Utf8Length(s) == |s| && '/' !in s && '\0' !in s
  {
    if s != "" {
      PlainLength(s[1..]);
    }
  }

  predicate IsValidName(name: string) {
    name != "" && name != "." && name != ".." && '/' !in name && '\0' !in name && Utf8Length(name) <= 255
  }
}

module Policy {
  import opened Paths
  import opened Tables

  /** `allow` is `None` for "everything". */
  datatype SyncPolicy = SyncPolicy(allow: Option<seq<Path>>, deny: seq<Path>)

  /** May the contents of `path` be downloaded, changed, or removed?  The deny-list wins. */
  predicate Allows(policy: SyncPolicy, path: Path) {
    && !(exists d :: d in policy.deny && Within(path, d))
    && (policy.allow.Some? ==> exists a :: a in policy.allow.value && Within(path, a))
  }

  /** Must a crawl enter this folder?  True on the way to, or inside, an allowed path. */
  predicate ShouldDescend(policy: SyncPolicy, folder: Path) {
    policy.allow.Some? ==> exists a :: a in policy.allow.value && (Within(folder, a) || Within(a, folder))
  }

  /** Whatever is allowed can be reached: every folder above it is entered. */
  lemma AllowedIsReachable(policy: SyncPolicy, path: Path, folder: Path)
    requires Allows(policy, path) && Within(path, folder)
    ensures ShouldDescend(policy, folder)
  {
    if policy.allow.Some? {
      var a :| a in policy.allow.value && Within(path, a);
      assert if |a| <= |folder| then Within(folder, a) else Within(a, folder);
    }
  }

  /** A path is allowed exactly when it is at or below nothing denied, and at or below something
      allowed if there is an allow-list. */
  lemma AllowedExactly(policy: SyncPolicy, path: Path)
    ensures Allows(policy, path) <==>
              && (forall d :: d in policy.deny ==> !(|d| <= |path| && path[..|d|] == d))
              && (policy.allow == None || exists a :: a in policy.allow.value && |a| <= |path| && path[..|a|] == a)
  {
  }

  /** A folder is entered exactly when the allow-list admits something at or below it. */
  lemma DescendsExactly(policy: SyncPolicy, folder: Path)
    ensures ShouldDescend(policy, folder) <==>
              exists path :: Within(path, folder) && Admits(policy, path)
  {
    if policy.allow.None? {
      assert Within(folder, folder) && Admits(policy, folder);
    } else if ShouldDescend(policy, folder) {
      var a :| a in policy.allow.value && (Within(folder, a) || Within(a, folder));
      var path := if |a| <= |folder| then folder else a;
      assert Within(path, folder) && Within(path, a) && Admits(policy, path);
    }
    if exists path :: Within(path, folder) && Admits(policy, path) {
      var path :| Within(path, folder) && Admits(policy, path);
      if policy.allow.Some? {
        var a :| a in policy.allow.value && Within(path, a);
        assert if |a| <= |folder| then Within(folder, a) else Within(a, folder);
      }
    }
  }

  /** Admitted by the allow-list, the deny-list apart. */
  predicate Admits(policy: SyncPolicy, path: Path) {
    policy.allow.Some? ==> exists a :: a in policy.allow.value && Within(path, a)
  }
}

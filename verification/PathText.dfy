/** `IcPath` as it is stored: a canonical string.  Canonical strings and component sequences
    are the same thing, every operation on the string is the one of module `Paths` on the
    components, and the range scan of a subtree query selects exactly the subtree. */
module PathText {
  import opened Paths
  import opened Tables
  import opened Names
  import opened Seqs

  // ---- splitting, normalising, printing --------------------------------------------------

  /** The parts between slashes. */
  function Split(s: string): (parts: seq<string>)
    ensures parts != []
    ensures forall i :: 0 <= i < |parts| ==> '/' !in parts[i]
  {
    if s == "" then [""]
    else
      var rest := Split(s[1..]);
      if s[0] == '/' then [""] + rest else [[s[0]] + rest[0]] + rest[1..]
  }

  /** Empty parts and `.` disappear, `..` drops a component but cannot climb above the root. */
  function Push(stack: Path, part: string): Path {
    if part == "" || part == "." then stack else if part == ".." then Parent(stack) else stack + [part]
  }

  function PushAll(stack: Path, parts: seq<string>): Path
    decreases |parts|
  {
    if parts == [] then stack else PushAll(Push(stack, parts[0]), parts[1..])
  }

  function Components(raw: string): Path {
    PushAll([], Split(raw))
  }

  function Body(p: Path): string {
    if p == [] then "" else "/" + p[0] + Body(p[1..])
  }

  function Render(p: Path): string {
    if p == [] then "/" else Body(p)
  }

  /** `IcPath::new`, in one expression. */
  function Normal(raw: string): string {
    Render(Components(raw))
  }

  predicate IsComponent(name: string) {
    name != "" && name != "." && name != ".." && '/' !in name
  }

  predicate IsPath(p: Path) {
    forall i :: 0 <= i < |p| ==> IsComponent(p[i])
  }

  /** A string `IcPath` can hold. */
  ghost predicate Canonical(s: string) {
    exists p :: IsPath(p) && s == Render(p)
  }

  method New(raw: string) returns (path: string)
    ensures path == Normal(raw)
  {
    var split, parts: Path := Split(raw), [];
    var i := 0;
    while i < |split|
      invariant 0 <= i <= |split|
      invariant PushAll(parts, split[i..]) == Components(raw)
    {
      var part := split[i];
      assert split[i..][0] == part && split[i..][1..] == split[i + 1..];
      if part == "" || part == "." {
      } else if part == ".." {
        if parts != [] { parts := parts[..|parts| - 1]; }
      } else {
        parts := parts + [part];
      }
      i := i + 1;
    }
    path := if parts == [] then "/" else Body(parts);
  }

  // ---- canonical form ------------------------------------------------------------------------

  lemma {:induction false} PushAllIsPath(stack: Path, parts: seq<string>)
    requires IsPath(stack) && forall i :: 0 <= i < |parts| ==> '/' !in parts[i]
    ensures IsPath(PushAll(stack, parts))
    decreases |parts|
  {
    if parts != [] {
      PushAllIsPath(Push(stack, parts[0]), parts[1..]);
    }
  }

  lemma {:induction false} PushAllJoin(stack: Path, a: seq<string>, b: seq<string>)
    ensures PushAll(stack, a + b) == PushAll(PushAll(stack, a), b)
    decreases |a|
  {
    if a == [] {
      assert a + b == b;
    } else {
      assert (a + b)[1..] == a[1..] + b;
      PushAllJoin(Push(stack, a[0]), a[1..], b);
    }
  }

  lemma SplitStep(s: string)
    requires s != ""
    ensures Split(s) == if s[0] == '/' then [""] + Split(s[1..])
                        else [[s[0]] + Split(s[1..])[0]] + Split(s[1..])[1..]
  {
  }

  lemma {:induction false} SplitJoin(a: string, b: string)
    ensures Split(a + ("/" + b)) == Split(a) + Split(b)
    ensures Split(a + "/" + b) == Split(a) + Split(b)
    decreases |a|
  {
    Assoc(a, "/", b);
    if a == "" {
      Empty("/" + b);
      Tail("/", b);
      Empty(b);
    } else {
      SplitJoin(a[1..], b);
      Tail(a, "/" + b);
      SplitStep(a);
      SplitStep(a + ("/" + b));
      var rest := Split(a[1..]);
      if a[0] == '/' {
        Assoc([""], rest, Split(b));
      } else {
        Tail(rest, Split(b));
        Assoc([[a[0]] + rest[0]], rest[1..], Split(b));
      }
    }
  }

  lemma {:induction false} SplitPlain(name: string)
    requires '/' !in name
    ensures Split(name) == [name]
  {
    if name != "" {
      SplitPlain(name[1..]);
      assert [name[0]] + name[1..] == name;
    }
  }

  lemma {:induction false} BodyJoin(p: Path, q: Path)
    ensures Body(p + q) == Body(p) + Body(q)
  {
    if p == [] {
      assert p + q == q;
    } else {
      assert (p + q)[1..] == p[1..] + q;
      BodyJoin(p[1..], q);
      assert "/" + p[0] + (Body(p[1..]) + Body(q)) == "/" + p[0] + Body(p[1..]) + Body(q);
    }
  }

  /** Reading a printed path back, on top of any stack. */
  lemma {:induction false} PushBody(stack: Path, p: Path)
    requires IsPath(p)
    ensures PushAll(stack, Split(Body(p))) == stack + p
    decreases |p|
  {
    if p == [] {
      assert PushAll(stack, [""]) == PushAll(stack, []);
      assert stack + p == stack;
    } else {
      var front, last := p[..|p| - 1], Last(p);
      assert p == front + [last];
      BodyJoin(front, [last]);
      assert Body([last]) == "/" + last + "" && "/" + last + "" == "/" + last;
      assert Body(p) == Body(front) + "/" + last;
      SplitJoin(Body(front), last);
      SplitPlain(last);
      PushAllJoin(stack, Split(Body(front)), [last]);
      PushBody(stack, front);
      assert PushAll(stack + front, [last]) == PushAll(stack + front + [last], []);
      assert stack + front + [last] == stack + p;
    }
  }

  /** Components and canonical strings determine each other. */
  lemma ComponentsOfRendered(p: Path)
    requires IsPath(p)
    ensures Components(Render(p)) == p
  {
    if p == [] {
      assert "/" == "" + "/" + "";
      SplitJoin("", "");
      assert PushAll([], ["", ""]) == PushAll([], [""]) == [];
    } else {
      PushBody([], p);
      assert [] + p == p;
    }
  }

  /** `new` always yields canonical form, and changes nothing that already has it. */
  lemma NewIsCanonical(raw: string)
    ensures IsPath(Components(raw)) && Canonical(Normal(raw))
    ensures Normal(Normal(raw)) == Normal(raw)
    ensures Canonical(raw) ==> Normal(raw) == raw
  {
    PushAllIsPath([], Split(raw));
    ComponentsOfRendered(Components(raw));
    if Canonical(raw) {
      var p :| IsPath(p) && raw == Render(p);
      ComponentsOfRendered(p);
    }
  }

  /** Normalising a prefix first makes no difference. */
  lemma NewOfPrefix(a: string, b: string)
    ensures Normal(Normal(a) + "/" + b) == Normal(a + "/" + b)
  {
    var p := Components(a);
    PushAllIsPath([], Split(a));
    ComponentsOfRendered(p);
    SplitJoin(a, b);
    SplitJoin(Normal(a), b);
    PushAllJoin([], Split(a), Split(b));
    PushAllJoin([], Split(Normal(a)), Split(b));
  }

  /** What one more part does: an empty one and `.` nothing, `..` takes the last component away if there
      is one, anything else is the new last component. */
  lemma NewOfLonger(raw: string, part: string)
    requires '/' !in part
    ensures var p, longer := Components(raw), Components(raw + "/" + part);
            if part == "" || part == "." then longer == p
            else if part == ".." then longer == if p == [] then [] else p[..|p| - 1]
            else longer == p + [part]
    ensures Components("") == []
  {
    SplitJoin(raw, part);
    SplitPlain(part);
    PushAllJoin([], Split(raw), [part]);
    assert PushAll(Components(raw), [part]) == PushAll(Push(Components(raw), part), []);
    assert PushAll([], [""]) == PushAll([], []);
  }

  // ---- the operations on strings -----------------------------------------------------------

  function LastSlash(s: string): (i: int)
    ensures -1 <= i < |s|
    ensures i >= 0 ==> s[i] == '/' && '/' !in s[i + 1..]
    ensures i < 0 ==> '/' !in s
  {
    if s == "" then -1
    else if s[|s| - 1] == '/' then
      assert s[|s|..] == "";
      |s| - 1
    else
      var i := LastSlash(s[..|s| - 1]);
      assert i >= 0 ==> s[i + 1..] == s[..|s| - 1][i + 1..] + [s[|s| - 1]];
      assert s == s[..|s| - 1] + [s[|s| - 1]];
      i
  }

  function ParentText(s: string): string {
    var i := LastSlash(s);
    if i <= 0 then "/" else s[..i]
  }

  function FileNameText(s: string): Option<string> {
    if s == "/" then None else Some(s[LastSlash(s) + 1..])
  }

  function JoinText(s: string, name: string): Option<string> {
    if !IsValidName(name) then None else if s == "/" then Some("/" + name) else Some(s + "/" + name)
  }

  function Slashes(s: string): nat {
    if s == "" then 0 else (if s[0] == '/' then 1 else 0) + Slashes(s[1..])
  }

  function DepthText(s: string): nat {
    if s == "/" then 0 else Slashes(s)
  }

  predicate IsWithinText(s: string, prefix: string) {
    || prefix == "/" || s == prefix
    || (prefix <= s && |s| > |prefix| && s[|prefix|] == '/')
  }

  function TrimStart(s: string): string {
    if s != "" && s[0] == '/' then TrimStart(s[1..]) else s
  }

  function RelativeTo(s: string, prefix: string): Option<string> {
    if !IsWithinText(s, prefix) then None
    else if prefix == "/" then Some(TrimStart(s))
    else if prefix <= s then Some(TrimStart(s[|prefix|..]))
    else None
  }

  function RebaseText(s: string, from: string, to: string): Option<string> {
    var rest := RelativeTo(s, from);
    if rest.None? then None
    else if rest.value == "" then Some(to)
    else Some(if to == "/" then "/" + rest.value else to + "/" + rest.value)
  }

  // ---- are the operations on components --------------------------------------------------------

  lemma {:induction false} BodyShape(p: Path)
    requires IsPath(p) && p != []
    ensures |Body(p)| >= 2 && Body(p)[0] == '/' && Body(p)[1] != '/'
    ensures Body(p) == Body(p[..|p| - 1]) + "/" + Last(p)
    ensures Body(p) != "/"
  {
    assert p[0][0] in p[0];
    assert p == p[..|p| - 1] + [Last(p)];
    BodyJoin(p[..|p| - 1], [Last(p)]);
    assert Body([Last(p)]) == "/" + Last(p) + "" && "/" + Last(p) + "" == "/" + Last(p);
    assert Body(p[..|p| - 1]) + ("/" + Last(p)) == Body(p[..|p| - 1]) + "/" + Last(p);
  }

  lemma {:induction false} LastSlashAt(a: string, name: string)
    requires '/' !in name
    ensures LastSlash(a + "/" + name) == |a|
  {
    var s := a + "/" + name;
    if name == "" {
      assert s[|s| - 1] == '/';
    } else {
      assert s[|s| - 1] == name[|name| - 1] && name[|name| - 1] in name;
      assert s[..|s| - 1] == a + "/" + name[..|name| - 1];
      LastSlashAt(a, name[..|name| - 1]);
    }
  }

  lemma BodyOfOne(name: string)
    ensures Body([name]) == "/" + name
  {
    assert Body([name]) == "/" + name + "" == "/" + name;
  }

  lemma ParentOnText(p: Path)
    requires IsPath(p)
    ensures ParentText(Render(p)) == Render(Parent(p))
    ensures FileNameText(Render(p)) == if p == [] then None else Some(Last(p))
  {
    if p == [] {
      assert LastSlash("/") == 0;
    } else {
      var front := Body(p[..|p| - 1]);
      BodyShape(p);
      LastSlashAt(front, Last(p));
      assert Body(p)[..|front|] == front && Body(p)[|front| + 1..] == Last(p);
      if |p| > 1 { BodyShape(p[..|p| - 1]); }
    }
  }

  lemma JoinOnText(p: Path, name: string)
    requires IsPath(p)
    ensures JoinText(Render(p), name) == if IsValidName(name) then Some(Render(p + [name])) else None
    ensures IsValidName(name) ==> IsPath(p + [name])
  {
    BodyOfOne(name);
    if p == [] {
      assert p + [name] == [name];
    } else {
      BodyShape(p);
      BodyJoin(p, [name]);
      assert Body(p) + ("/" + name) == Body(p) + "/" + name;
    }
  }

  lemma DepthOnText(p: Path)
    requires IsPath(p)
    ensures DepthText(Render(p)) == |p|
  {
    if p != [] {
      BodyShape(p);
      SlashesOfBody(p);
    }
  }

  lemma {:induction false} SlashesJoin(a: string, b: string)
    ensures Slashes(a + b) == Slashes(a) + Slashes(b)
  {
    if a == "" {
      assert a + b == b;
    } else {
      assert (a + b)[1..] == a[1..] + b;
      SlashesJoin(a[1..], b);
    }
  }

  lemma {:induction false} NoSlashes(a: string)
    requires '/' !in a
    ensures Slashes(a) == 0
  {
    if a != "" {
      NoSlashes(a[1..]);
    }
  }

  lemma {:induction false} SlashesOfBody(p: Path)
    requires IsPath(p)
    ensures Slashes(Body(p)) == |p|
  {
    if p != [] {
      SlashesOfBody(p[1..]);
      SlashesJoin("/" + p[0], Body(p[1..]));
      SlashesJoin("/", p[0]);
      NoSlashes(p[0]);
      assert Slashes("/") == 1;
    }
  }

  function HeadLength(s: string): nat {
    if s == "" || s[0] == '/' then 0 else 1 + HeadLength(s[1..])
  }

  lemma {:induction false} HeadIs(a: string, x: string)
    requires '/' !in a && (x == "" || x[0] == '/')
    ensures HeadLength(a + x) == |a|
  {
    if a == "" {
      assert a + x == x;
    } else {
      assert a[0] in a && (a + x)[1..] == a[1..] + x;
      HeadIs(a[1..], x);
    }
  }

  /** What follows a component is nothing or a slash, so equal texts have equal components. */
  lemma SameHead(a: string, x: string, c: string, y: string)
    requires '/' !in a && '/' !in c && a + x == c + y
    requires (x == "" || x[0] == '/') && (y == "" || y[0] == '/')
    ensures a == c && x == y
  {
    HeadIs(a, x);
    HeadIs(c, y);
    var s := a + x;
    assert a == s[..|a|] && c == s[..|c|] && x == s[|a|..] && y == s[|c|..];
  }

  lemma BodyHead(p: Path, rest: string)
    requires p != []
    ensures Body(p) + rest != "" && (Body(p) + rest)[1..] == p[0] + (Body(p[1..]) + rest)
  {
    Assoc("/", p[0], Body(p[1..]));
    Assoc("/", p[0] + Body(p[1..]), rest);
    Assoc(p[0], Body(p[1..]), rest);
    Halves("/", p[0] + (Body(p[1..]) + rest));
  }

  /** A printed path followed by nothing or a slash is a printed path only for its descendants. */
  lemma {:induction false} PrefixIsAncestor(p: Path, rest: string, q: Path)
    requires IsPath(p) && IsPath(q) && Body(p) + rest == Body(q) && (rest == "" || rest[0] == '/')
    ensures Within(q, p) && rest == Body(q[|p|..])
    decreases |p|
  {
    if p == [] {
      assert Body(p) + rest == rest && q[0..] == q;
    } else {
      BodyHead(p, rest);
      assert q != [];
      BodyHead(q, "");
      assert Body(q) + "" == Body(q);
      BodyStart(p[1..], rest);
      BodyStart(q[1..], "");
      SameHead(p[0], Body(p[1..]) + rest, q[0], Body(q[1..]) + "");
      TailsAgree(p, rest, q);
    }
  }

  lemma {:induction false} TailsAgree(p: Path, rest: string, q: Path)
    requires IsPath(p) && IsPath(q) && p != [] && q != [] && p[0] == q[0] && (rest == "" || rest[0] == '/')
    requires Body(p[1..]) + rest == Body(q[1..]) + ""
    ensures Within(q, p) && rest == Body(q[|p|..])
    decreases |p|, 0
  {
    assert Body(q[1..]) + "" == Body(q[1..]);
    PrefixIsAncestor(p[1..], rest, q[1..]);
    assert q[1..][|p| - 1..] == q[|p|..];
    assert p == [p[0]] + p[1..] && q == [q[0]] + q[1..];
  }

  lemma BodyStart(p: Path, rest: string)
    requires rest == "" || rest[0] == '/'
    ensures Body(p) + rest == "" || (Body(p) + rest)[0] == '/'
  {
  }

  /** `is_within` on strings is the component prefix, not the string prefix. */
  lemma WithinText(q: Path, p: Path)
    requires IsPath(p) && IsPath(q)
    ensures IsWithinText(Render(q), Render(p)) <==> Within(q, p)
  {
    if p != [] {
      BodyShape(p);
      if q != [] { BodyShape(q); }
      if Within(q, p) {
        assert q == p + q[|p|..];
        BodyJoin(p, q[|p|..]);
        BodyStart(q[|p|..], "");
      }
      if q != [] && IsWithinText(Render(q), Render(p)) {
        var rest := Body(q)[|Body(p)|..];
        assert Body(q) == Body(p) + rest;
        PrefixIsAncestor(p, rest, q);
      }
    }
  }

  /** So containment is a partial order along which depth strictly grows. */
  lemma WithinIsOrder(p: Path, q: Path, r: Path)
    requires IsPath(p) && IsPath(q) && IsPath(r)
    ensures IsWithinText(Render(p), Render(p))
    ensures IsWithinText(Render(p), Render(q)) && IsWithinText(Render(q), Render(p)) ==> Render(p) == Render(q)
    ensures IsWithinText(Render(p), Render(q)) && IsWithinText(Render(q), Render(r)) ==>
              IsWithinText(Render(p), Render(r))
    ensures IsWithinText(Render(p), Render(q)) && Render(p) != Render(q) ==> DepthText(Render(p)) > DepthText(Render(q))
  {
    WithinText(p, p);
    WithinText(p, q);
    WithinText(q, p);
    WithinText(q, r);
    WithinText(p, r);
    DepthOnText(p);
    DepthOnText(q);
    assert Within(p, q) && |p| == |q| ==> p == q;
  }

  lemma TrimBody(p: Path)
    requires IsPath(p)
    ensures TrimStart(Body(p)) == if p == [] then "" else Body(p)[1..]
  {
    if p != [] {
      BodyShape(p);
    }
  }

  /** Appending a relative path to a printed one. */
  lemma AppendBelow(to: Path, below: Path)
    requires IsPath(to) && IsPath(below) && below != []
    ensures Render(to + below) == if to == [] then "/" + Body(below)[1..] else Render(to) + "/" + Body(below)[1..]
  {
    BodyShape(below);
    BodyJoin(to, below);
    assert "/" + Body(below)[1..] == Body(below);
    if to == [] {
      Empty(below);
    } else {
      Assoc(Body(to), "/", Body(below)[1..]);
    }
  }

  lemma PathPart(q: Path, n: nat)
    requires IsPath(q) && n <= |q|
    ensures IsPath(q[n..])
  {
  }

  /** Rebasing on strings is rebasing on components, and refused exactly outside the subtree. */
  lemma RebaseOnText(q: Path, from: Path, to: Path)
    requires IsPath(q) && IsPath(from) && IsPath(to)
    ensures RebaseText(Render(q), Render(from), Render(to)) ==
            if Within(q, from) then Some(Render(Rebase(q, from, to))) else None
    ensures Within(q, from) ==> IsPath(Rebase(q, from, to))
  {
    WithinText(q, from);
    if Within(q, from) {
      var below := q[|from|..];
      PathPart(q, |from|);
      RelativeOnText(q, from);
      if to != [] { BodyShape(to); }
      if below == [] {
        Empty(to);
      } else {
        BodyShape(below);
        AppendBelow(to, below);
      }
    }
  }

  lemma RelativeOnText(q: Path, from: Path)
    requires IsPath(q) && IsPath(from) && Within(q, from)
    ensures var below := q[|from|..];
            RelativeTo(Render(q), Render(from)) == Some(if below == [] then "" else Body(below)[1..])
  {
    WithinText(q, from);
    var below := q[|from|..];
    assert q == from + below;
    BodyJoin(from, below);
    TrimBody(below);
    if from == [] {
      assert q == below;
      assert q == [] ==> TrimStart("/") == "";
    } else {
      BodyShape(from);
      assert q != [];
      assert Body(q)[|Body(from)|..] == Body(below);
    }
  }

  // ---- the range scan ------------------------------------------------------------------------

  /** The order of strings in the database. */
  predicate LexLess(a: string, b: string) {
    if b == "" then false
    else if a == "" then true
    else if a[0] != b[0] then a[0] < b[0]
    else LexLess(a[1..], b[1..])
  }

  /** Bounds of a scan over everything strictly below a path. */
  function SubtreeBounds(s: string): (string, string) {
    var low := if s == "/" then "/" else s + "/";
    (low, low[..|low| - 1] + "0")
  }

  predicate InRange(s: string, bounds: (string, string)) {
    !LexLess(s, bounds.0) && LexLess(s, bounds.1)
  }

  /** Between `b/` and `b0` lie exactly the strings that start with `b/`, because `0` is the
      character right after the slash. */
  lemma {:induction false} RangeIsPrefix(b: string, s: string)
    ensures !LexLess(s, b + "/") && LexLess(s, b + "0") <==> b + "/" <= s
    decreases |b|
  {
    assert ('/' as int) + 1 == '0' as int;
    if b == "" {
      Empty("/");
      Empty("0");
      assert "/"[1..] == "" && "0"[1..] == "";
      assert s != "" ==> ("/" <= s <==> s[0] == '/');
    } else {
      Tail(b, "/");
      Tail(b, "0");
      assert b + "/" <= s ==> s[0] == (b + "/")[0];
      if s != "" && s[0] == b[0] {
        RangeIsPrefix(b[1..], s[1..]);
        PrefixTail(b + "/", s);
      }
    }
  }

  lemma PrefixTail(a: string, s: string)
    requires a != "" && s != "" && a[0] == s[0]
    ensures a <= s <==> a[1..] <= s[1..]
  {
    if a[1..] <= s[1..] {
      assert forall i :: 1 <= i < |a| ==> a[i] == a[1..][i - 1] && s[i] == s[1..][i - 1];
    }
    if a <= s {
      assert a[1..] == s[1..][..|a| - 1];
    }
  }

  lemma RootRange(q: Path)
    requires IsPath(q)
    ensures InRange(Render(q), SubtreeBounds("/"))
  {
    RangeIsPrefix("", Render(q));
    Empty("/");
    Empty("0");
    assert "/"[..0] == "";
    if q != [] { BodyShape(q); }
  }

  lemma BelowRange(b: string, s: string)
    requires b != "/"
    ensures InRange(s, SubtreeBounds(b)) <==> b <= s && |s| > |b| && s[|b|] == '/'
  {
    Halves(b, "/");
    assert (b + "/")[..|b + "/"| - 1] == b;
    RangeIsPrefix(b, s);
    if b <= s && |s| > |b| && s[|b|] == '/' {
      assert b + "/" == s[..|b| + 1];
    }
    if b + "/" <= s {
      assert s[..|b| + 1] == b + "/";
    }
  }

  /** The query for a subtree, root included, selects precisely the subtree. */
  lemma RangeScanIsExact(p: Path, q: Path)
    requires IsPath(p) && IsPath(q)
    ensures Render(q) == Render(p) || InRange(Render(q), SubtreeBounds(Render(p))) <==> Within(q, p)
  {
    WithinText(q, p);
    if p == [] {
      RootRange(q);
    } else {
      BodyShape(p);
      BelowRange(Body(p), Render(q));
    }
  }
}

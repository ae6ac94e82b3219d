/** The engine's log lines and the status monitor that reads them back. */
module SyncLog {
  import opened Tables
  import opened Search
  import opened Seqs

  // ---- printing ---------------------------------------------------------------------

  /** A field's value: text is quoted, numbers and booleans are bare. */
  datatype Value = Quoted(text: string) | Bare(text: string)

  datatype Field = Field(key: string, value: Value)

  function ReplaceAll(s: string, c: char, instead: string): string {
    if s == "" then "" else (if s[0] == c then instead else [s[0]]) + ReplaceAll(s[1..], c, instead)
  }

  function RenderValue(v: Value): string {
    match v
    case Quoted(text) => "'" + ReplaceAll(ReplaceAll(text, '\\', "\\\\"), '\'', "\\'") + "'"
    case Bare(text) => text
  }

  function RenderFields(fields: seq<Field>): string {
    if fields == [] then ""
    else " " + fields[0].key + "=" + RenderValue(fields[0].value) + RenderFields(fields[1..])
  }

  function RenderEvent(event: string, fields: seq<Field>): string {
    "sync " + event + RenderFields(fields)
  }

  // ---- parsing -----------------------------------------------------------------------

  /** Unicode white space. */
  predicate IsSpace(c: char) {
    || c == ' ' || 0x09 <= c as int <= 0x0D || c as int in {0x85, 0xA0, 0x1680, 0x2028, 0x2029, 0x202F, 0x205F, 0x3000}
    || 0x2000 <= c as int <= 0x200A
  }

  predicate HasSpace(s: string) {
    exists i :: 0 <= i < |s| && IsSpace(s[i])
  }

  function Find(s: string, c: char): (r: Option<nat>)
    ensures r.Some? ==> r.value < |s| && s[r.value] == c && c !in s[..r.value]
    ensures r.None? ==> c !in s
  {
    if s == "" then None
    else if s[0] == c then Some(0)
    else
      var rest := Find(s[1..], c);
      if rest.None? then None
      else
        assert s[..rest.value + 1] == [s[0]] + s[1..][..rest.value];
        Some(rest.value + 1)
  }

  /** What is inside the quotes, and what follows them. */
  function Unquote(s: string): (r: (string, string))
    ensures |r.1| <= |s|
  {
    if s == "" then ("", "")
    else if s[0] == '\\' then
      if |s| == 1 then ("", "") else var (value, rest) := Unquote(s[2..]); ([s[1]] + value, rest)
    else if s[0] == '\'' then ("", s[1..])
    else var (value, rest) := Unquote(s[1..]); ([s[0]] + value, rest)
  }

  function TakeBare(s: string): (r: (string, string))
    ensures |r.1| <= |s|
  {
    if s == "" || IsSpace(s[0]) then ("", s)
    else var (value, rest) := TakeBare(s[1..]); ([s[0]] + value, rest)
  }

  function TakeValue(s: string): (r: (string, string))
    ensures |r.1| <= |s|
  {
    if s != "" && s[0] == '\'' then Unquote(s[1..]) else TakeBare(s)
  }

  /** The `key=value` fields, up to the first thing that is not one. */
  function Parsed(s: string): seq<(string, string)>
    decreases |s|
  {
    if s == "" then []
    else if IsSpace(s[0]) then Parsed(s[1..])
    else
      var eq := Find(s, '=');
      if eq.None? || HasSpace(s[..eq.value]) then []
      else
        var (value, rest) := TakeValue(s[eq.value + 1..]);
        [(s[..eq.value], value)] + Parsed(rest)
  }

  /** The cursor runs over a quoted value. */
  method ReadQuoted(s: string, start: nat) returns (value: string, i: nat)
    requires start <= |s|
    ensures start <= i <= |s| && (value, s[i..]) == Unquote(s[start..])
  {
    value, i := "", start;
    ghost var whole := Unquote(s[start..]);
    assert whole.0 == "" + whole.0;
    while i < |s|
      invariant start <= i <= |s|
      invariant whole.0 == value + Unquote(s[i..]).0 && whole.1 == Unquote(s[i..]).1
    {
      var c := s[i];
      assert s[i..][0] == c && s[i..][1..] == s[i + 1..];
      i := i + 1;
      if c == '\\' {
        if i < |s| {
          assert s[i - 1..][1] == s[i] && s[i - 1..][2..] == s[i + 1..];
          assert value + ([s[i]] + Unquote(s[i + 1..]).0) == value + [s[i]] + Unquote(s[i + 1..]).0;
          value := value + [s[i]];
          i := i + 1;
        }
      } else if c == '\'' {
        assert value + "" == value;
        return;
      } else {
        assert value + ([c] + Unquote(s[i..]).0) == value + [c] + Unquote(s[i..]).0;
        value := value + [c];
      }
    }
    assert s[i..] == "" && value + "" == value;
  }

  method ReadBare(s: string, start: nat) returns (value: string, i: nat)
    requires start <= |s|
    ensures start <= i <= |s| && (value, s[i..]) == TakeBare(s[start..])
  {
    value, i := "", start;
    ghost var whole := TakeBare(s[start..]);
    assert whole.0 == "" + whole.0;
    while i < |s| && !IsSpace(s[i])
      invariant start <= i <= |s|
      invariant whole.0 == value + TakeBare(s[i..]).0 && whole.1 == TakeBare(s[i..]).1
    {
      assert s[i..][0] == s[i] && s[i..][1..] == s[i + 1..];
      assert value + ([s[i]] + TakeBare(s[i + 1..]).0) == value + [s[i]] + TakeBare(s[i + 1..]).0;
      value := value + [s[i]];
      i := i + 1;
    }
    assert value + "" == value;
    assert i < |s| ==> s[i..][0] == s[i];
  }

  method ReadValue(s: string, start: nat) returns (value: string, i: nat)
    requires start <= |s|
    ensures start <= i <= |s| && (value, s[i..]) == TakeValue(s[start..])
  {
    if start < |s| && s[start] == '\'' {
      value, i := ReadQuoted(s, start + 1);
      assert s[start..][1..] == s[start + 1..];
    } else {
      value, i := ReadBare(s, start);
    }
  }

  /** The cursor at a space, at something that is not a field, at a field. */
  lemma ParsedSpace(s: string)
    requires s != "" && IsSpace(s[0])
    ensures Parsed(s) == Parsed(s[1..])
  {
  }

  lemma ParsedStop(s: string)
    requires s != "" && !IsSpace(s[0])
    requires Find(s, '=').Some? ==> HasSpace(s[..Find(s, '=').value])
    ensures Parsed(s) == []
  {
  }

  lemma ParsedField(s: string)
    requires s != "" && !IsSpace(s[0]) && Find(s, '=').Some? && !HasSpace(s[..Find(s, '=').value])
    ensures var eq := Find(s, '=').value;
            Parsed(s) == [(s[..eq], TakeValue(s[eq + 1..]).0)] + Parsed(TakeValue(s[eq + 1..]).1)
  {
  }

  /** One field, if there is one here. */
  method ReadField(s: string, i: nat) returns (field: Option<(string, string)>, after: nat)
    requires i < |s| && !IsSpace(s[i])
    ensures i <= after <= |s|
    ensures field.None? ==> Parsed(s[i..]) == []
    ensures field.Some? ==> i < after && Parsed(s[i..]) == [field.value] + Parsed(s[after..])
  {
    assert s[i..][0] == s[i];
    var eq := Find(s[i..], '=');
    if eq.None? || HasSpace(s[i..][..eq.value]) {
      ParsedStop(s[i..]);
      return None, i;
    }
    var value;
    value, after := ReadValue(s, i + eq.value + 1);
    assert s[i..][eq.value + 1..] == s[i + eq.value + 1..];
    assert TakeValue(s[i..][eq.value + 1..]) == (value, s[after..]);
    ParsedField(s[i..]);
    field := Some((s[i..][..eq.value], value));
  }

  /** The cursor runs over the whole text. */
  method ParseFields(s: string) returns (fields: seq<(string, string)>)
    ensures fields == Parsed(s)
  {
    fields := [];
    var i := 0;
    assert s[0..] == s;
    while i < |s|
      invariant 0 <= i <= |s|
      invariant Parsed(s) == fields + Parsed(s[i..])
      decreases |s| - i
    {
      if IsSpace(s[i]) {
        ParsedSpace(s[i..]);
        assert s[i..][1..] == s[i + 1..];
        i := i + 1;
      } else {
        var field, after := ReadField(s, i);
        if field.None? {
          Empty(fields);
          return;
        }
        Assoc(fields, [field.value], Parsed(s[after..]));
        fields, i := fields + [field.value], after;
      }
    }
  }

  // ---- they undo each other ------------------------------------------------------------

  /** An identifier, as the compiler sees to. */
  predicate IsKey(key: string) {
    key != "" && '=' !in key && !HasSpace(key)
  }

  predicate IsField(f: Field) {
    IsKey(f.key) && (f.value.Bare? ==> !HasSpace(f.value.text) && (f.value.text != "" ==> f.value.text[0] != '\''))
  }

  function Meant(fields: seq<Field>): seq<(string, string)> {
    seq(|fields|, i requires 0 <= i < |fields| => (fields[i].key, fields[i].value.text))
  }

  function Escape(s: string): string {
    if s == "" then "" else (if s[0] == '\\' || s[0] == '\'' then ['\\', s[0]] else [s[0]]) + Escape(s[1..])
  }

  /** Two replacements one after the other are one escaping pass. */
  lemma {:induction false} ReplacedTwice(s: string)
    ensures ReplaceAll(ReplaceAll(s, '\\', "\\\\"), '\'', "\\'") == Escape(s)
  {
    if s != "" {
      ReplacedTwice(s[1..]);
      var rest := ReplaceAll(s[1..], '\\', "\\\\");
      if s[0] == '\\' {
        ReplaceFirst("\\\\" + rest);
        ReplaceFirst("\\" + rest);
        assert ("\\\\" + rest)[1..] == "\\" + rest && ("\\" + rest)[1..] == rest;
      } else {
        ReplaceFirst([s[0]] + rest);
        assert ([s[0]] + rest)[1..] == rest;
      }
    }
  }

  lemma ReplaceFirst(s: string)
    requires s != ""
    ensures ReplaceAll(s, '\'', "\\'") == (if s[0] == '\'' then "\\'" else [s[0]]) + ReplaceAll(s[1..], '\'', "\\'")
  {
  }

  lemma {:induction false} UnquoteEscaped(s: string, rest: string)
    ensures Unquote(Escape(s) + "'" + rest) == (s, rest)
  {
    var all := Escape(s) + "'" + rest;
    if s == "" {
      assert all == "'" + rest && all[1..] == rest;
    } else {
      UnquoteEscaped(s[1..], rest);
      var tail := Escape(s[1..]) + "'" + rest;
      if s[0] == '\\' || s[0] == '\'' {
        assert all == ['\\', s[0]] + tail && all[2..] == tail;
      } else {
        assert all == [s[0]] + tail && all[1..] == tail;
      }
      assert [s[0]] + s[1..] == s;
    }
  }

  lemma {:induction false} TakeBareAll(s: string, rest: string)
    requires !HasSpace(s) && (rest == "" || IsSpace(rest[0]))
    ensures TakeBare(s + rest) == (s, rest)
  {
    if s == "" {
      assert s + rest == rest;
    } else {
      assert IsSpace(s[0]) ==> HasSpace(s);
      assert forall i :: 0 <= i < |s[1..]| ==> s[1..][i] == s[i + 1];
      TakeBareAll(s[1..], rest);
      assert (s + rest)[1..] == s[1..] + rest;
      assert [s[0]] + s[1..] == s;
    }
  }

  lemma TakeRendered(v: Value, rest: string)
    requires v.Bare? ==> !HasSpace(v.text) && (v.text != "" ==> v.text[0] != '\'')
    requires rest == "" || IsSpace(rest[0])
    ensures TakeValue(RenderValue(v) + rest) == (v.text, rest)
  {
    match v
    case Quoted(text) =>
      ReplacedTwice(text);
      UnquoteEscaped(text, rest);
      var all := RenderValue(v) + rest;
      assert all == "'" + (Escape(text) + "'" + rest) && all[1..] == Escape(text) + "'" + rest;
    case Bare(text) =>
      TakeBareAll(text, rest);
      assert text + rest != "" ==> (text + rest)[0] != '\'';
  }

  lemma {:induction false} FindFirst(s: string, c: char, k: nat)
    requires k < |s| && s[k] == c && c !in s[..k]
    ensures Find(s, c) == Some(k)
  {
    if k > 0 {
      assert s[0] == s[..k][0];
      assert s[..k][1..] == s[1..][..k - 1];
      FindFirst(s[1..], c, k - 1);
    }
  }

  lemma FindAfter(key: string, rest: string)
    requires '=' !in key
    ensures Find(key + "=" + rest, '=') == Some(|key|)
  {
    var s := key + "=" + rest;
    assert s[..|key|] == key;
    FindFirst(s, '=', |key|);
  }

  lemma {:induction false} RenderedStartsWithSpace(fields: seq<Field>)
    ensures RenderFields(fields) == "" || IsSpace(RenderFields(fields)[0])
  {
  }

  /** One rendered field parses to itself. */
  lemma ParseOne(f: Field, rest: string)
    requires IsField(f) && (rest == "" || IsSpace(rest[0]))
    ensures Parsed(f.key + "=" + RenderValue(f.value) + rest) == [(f.key, f.value.text)] + Parsed(rest)
  {
    var after := RenderValue(f.value) + rest;
    var s := f.key + "=" + after;
    assert f.key + "=" + RenderValue(f.value) + rest == s;
    FindAfter(f.key, after);
    assert s[..|f.key|] == f.key && s[|f.key| + 1..] == after;
    assert s[0] == f.key[0] && !IsSpace(f.key[0]);
    TakeRendered(f.value, rest);
  }

  lemma SkipSpace(s: string)
    ensures Parsed(" " + s) == Parsed(s)
  {
    Tail(" ", s);
    Empty(s);
    ParsedSpace(" " + s);
  }

  lemma RenderStep(fields: seq<Field>)
    requires fields != []
    ensures RenderFields(fields) ==
            " " + (fields[0].key + "=" + RenderValue(fields[0].value) + RenderFields(fields[1..]))
  {
    var key, value, rest := fields[0].key, RenderValue(fields[0].value), RenderFields(fields[1..]);
    Assoc(" ", key, "=");
    Assoc(" ", key + "=", value);
    Assoc(" ", key + "=" + value, rest);
  }

  lemma MeantStep(fields: seq<Field>)
    requires fields != []
    ensures Meant(fields) == [(fields[0].key, fields[0].value.text)] + Meant(fields[1..])
  {
  }

  /** Whatever fields the engine prints, the monitor reads back exactly those. */
  lemma {:induction false} FieldsRoundTrip(fields: seq<Field>)
    requires forall i :: 0 <= i < |fields| ==> IsField(fields[i])
    ensures Parsed(RenderFields(fields)) == Meant(fields)
    decreases |fields|
  {
    if fields != [] {
      FieldsRoundTrip(fields[1..]);
      RenderStep(fields);
      MeantStep(fields);
      var rest := RenderFields(fields[1..]);
      RenderedStartsWithSpace(fields[1..]);
      ParseOne(fields[0], rest);
      SkipSpace(fields[0].key + "=" + RenderValue(fields[0].value) + rest);
    }
  }

  // ---- recognising a line ----------------------------------------------------------------

  datatype Activity =
    | Listing(name: string)
    | Listed(name: string, items: nat)
    | Downloading(name: string)
    | Downloaded(name: string)
    | Syncing(name: string)
    | Synced(name: string)

  predicate StartsWith(s: string, prefix: string) {
    prefix <= s
  }

  function FindText(s: string, text: string): (r: Option<nat>)
    ensures r.Some? ==> r.value <= |s| && StartsWith(s[r.value..], text)
  {
    if StartsWith(s, text) then Some(0)
    else if s == "" then None
    else
      var rest := FindText(s[1..], text);
      if rest.None? then None
      else
        assert s[rest.value + 1..] == s[1..][rest.value..];
        Some(rest.value + 1)
  }

  function Get(fields: seq<(string, string)>, key: string): Option<string> {
    if fields == [] then None else if fields[0].0 == key then Some(fields[0].1) else Get(fields[1..], key)
  }

  function TrimSlashes(s: string): string {
    if s != "" && s[|s| - 1] == '/' then TrimSlashes(s[..|s| - 1]) else s
  }

  function AfterLastSlash(s: string): string {
    if s == "" || s[|s| - 1] == '/' then "" else AfterLastSlash(s[..|s| - 1]) + [s[|s| - 1]]
  }

  /** The last component, `iCloud` for the root. */
  function DisplayName(path: string): string {
    var name := AfterLastSlash(TrimSlashes(path));
    if name != "" then name else "iCloud"
  }

  predicate AllDigits(s: string) {
    forall i :: 0 <= i < |s| ==> '0' <= s[i] <= '9'
  }

  function NumberOf(s: string): nat
    requires AllDigits(s)
  {
    if s == "" then 0 else NumberOf(s[..|s| - 1]) * 10 + (s[|s| - 1] as int - '0' as int)
  }

  /** A number that fits in 64 bits, else zero. */
  function Items(text: Option<string>): nat {
    if text.None? then 0
    else
      var digits := if text.value != "" && text.value[0] == '+' then text.value[1..] else text.value;
      if digits == "" || !AllDigits(digits) || NumberOf(digits) >= 0x1_0000_0000_0000_0000 then 0 else NumberOf(digits)
  }

  function ActivityOf(event: string, fields: seq<(string, string)>): Option<Activity> {
    var path := Get(fields, "path");
    var name := DisplayName(if path.Some? then path.value else "/");
    if event == "list-directory-start" then Some(Listing(name))
    else if event == "list-directory-complete" then Some(Listed(name, Items(Get(fields, "entries"))))
    else if event == "hydrate-start" then Some(Downloading(name))
    else if event == "hydrate-complete" then Some(Downloaded(name))
    else if event == "file-sync-start" then Some(Syncing(name))
    else if event == "file-sync-complete" then Some(Synced(name))
    else None
  }

  /** What follows the marker: the event, then its fields. */
  function EventOf(after: string): Option<Activity> {
    var space := Find(after, ' ');
    if space.None? then ActivityOf(after, [])
    else ActivityOf(after[..space.value], Parsed(after[space.value + 1..]))
  }

  function ParseLine(line: string): Option<Activity> {
    var at := FindText(line, "sync ");
    if at.None? then None else EventOf(line[at.value..][5..])
  }

  /** The log writes its own header before the event. */
  predicate IsHeader(header: string, rest: string) {
    forall i :: 0 <= i < |header| ==> !StartsWith((header + rest)[i..], "sync ")
  }

  lemma {:induction false} FindPastHeader(header: string, rest: string)
    requires IsHeader(header, rest) && StartsWith(rest, "sync ")
    ensures FindText(header + rest, "sync ") == Some(|header|)
  {
    var s := header + rest;
    if header == "" {
      assert s == rest;
    } else {
      assert s[0..] == s && !StartsWith(s[0..], "sync ");
      assert s[1..] == header[1..] + rest;
      forall i | 0 <= i < |header[1..]| ensures !StartsWith((header[1..] + rest)[i..], "sync ") {
        assert s[1..][i..] == s[i + 1..];
      }
      FindPastHeader(header[1..], rest);
    }
  }

  lemma RestParses(fields: seq<Field>)
    requires fields != [] && forall i :: 0 <= i < |fields| ==> IsField(fields[i])
    ensures RenderFields(fields)[0] == ' ' && Parsed(RenderFields(fields)[1..]) == Meant(fields)
  {
    FieldsRoundTrip(fields);
    var rest := RenderFields(fields)[1..];
    assert RenderFields(fields)[0] == ' ';
    assert RenderFields(fields) == " " + rest;
    SkipSpace(rest);
  }

  /** What the engine logs is what the monitor understands: the event and its fields, whatever
      the file is called. */
  lemma LineRoundTrip(header: string, event: string, fields: seq<Field>)
    requires ' ' !in event && forall i :: 0 <= i < |fields| ==> IsField(fields[i])
    requires IsHeader(header, RenderEvent(event, fields))
    ensures ParseLine(header + RenderEvent(event, fields)) == ActivityOf(event, Meant(fields))
  {
    var after := event + RenderFields(fields);
    assert RenderEvent(event, fields) == "sync " + after by {
      Assoc("sync ", event, RenderFields(fields));
    }
    EventParses(event, fields, after);
    LineIsEvent(header, after, "sync ");
  }

  lemma LineIsEvent(header: string, after: string, marker: string)
    requires marker == "sync " && IsHeader(header, marker + after)
    ensures ParseLine(header + (marker + after)) == EventOf(after)
  {
    var line := marker + after;
    assert |marker| == 5 && line[5..] == after;
    FindPastHeader(header, line);
    assert (header + line)[|header|..] == line;
  }

  lemma EventParses(event: string, fields: seq<Field>, after: string)
    requires ' ' !in event && forall i :: 0 <= i < |fields| ==> IsField(fields[i])
    requires after == event + RenderFields(fields)
    ensures EventOf(after) == ActivityOf(event, Meant(fields))
  {
    if fields == [] {
      assert after == event;
      assert Meant(fields) == [];
    } else {
      RestParses(fields);
      assert after[..|event|] == event && after[|event|] == ' ';
      FindFirst(after, ' ', |event|);
      assert after[|event| + 1..] == RenderFields(fields)[1..];
    }
  }

  // ---- what the events say -------------------------------------------------------------------

  /** A decimal number is read back. */
  lemma {:induction false} NumberIsRead(n: nat)
    ensures AllDigits(Decimal(n)) && NumberOf(Decimal(n)) == n && Decimal(n)[0] != '+'
  {
    var text := Decimal(n);
    if n >= 10 {
      NumberIsRead(n / 10);
      assert text[..|text| - 1] == Decimal(n / 10);
    } else {
      assert text[..0] == "";
    }
  }

  /** What is shown of a path is its last component. */
  lemma LastIsShown(dir: string, name: string)
    requires name != "" && '/' !in name
    ensures DisplayName(dir + "/" + name) == name
  {
    var path := dir + "/" + name;
    assert path[|path| - 1] == name[|name| - 1];
    assert TrimSlashes(path) == path;
    AfterSlashIs(dir, name);
  }

  lemma {:induction false} AfterSlashIs(dir: string, name: string)
    requires '/' !in name
    ensures AfterLastSlash(dir + "/" + name) == name
    decreases |name|
  {
    var path := dir + "/" + name;
    if name != "" {
      var shorter := name[..|name| - 1];
      AfterSlashIs(dir, shorter);
      assert path[..|path| - 1] == dir + "/" + shorter;
      assert path[|path| - 1] == name[|name| - 1] && name[|name| - 1] in name;
      assert name == shorter + [name[|name| - 1]];
    }
  }

  /** The activity an event about the path `dir/name` becomes, with the number of entries listed. */
  lemma EventsAreShown(dir: string, name: string, n: nat)
    requires name != "" && '/' !in name && n < 0x1_0000_0000_0000_0000
    ensures var about := [("path", dir + "/" + name)];
            && ActivityOf("list-directory-start", about) == Some(Listing(name))
            && ActivityOf("list-directory-complete", about + [("entries", Decimal(n))]) == Some(Listed(name, n))
            && ActivityOf("hydrate-start", about) == Some(Downloading(name))
            && ActivityOf("hydrate-complete", about) == Some(Downloaded(name))
            && ActivityOf("file-sync-start", about) == Some(Syncing(name))
            && ActivityOf("file-sync-complete", about) == Some(Synced(name))
    ensures DisplayName("/") == "iCloud"
  {
    LastIsShown(dir, name);
    NumberIsRead(n);
    var about := [("path", dir + "/" + name)];
    var fields := about + [("entries", Decimal(n))];
    assert fields[1..] == [("entries", Decimal(n))];
    assert "path" != "entries" by {
      assert |"path"| == 4 && |"entries"| == 7;
    }
    assert Get(fields, "path") == Some(dir + "/" + name);
    assert Get(fields, "entries") == Some(Decimal(n));
    assert TrimSlashes("/") == "" by {
      assert "/"[..0] == "";
    }
  }

  // ---- following the log ---------------------------------------------------------------------

  /** The unfinished last line and the latest activity. */
  datatype Progress = Progress(partial: string, last: Option<Activity>)

  function WithoutReturn(line: string): string {
    if line != "" && line[|line| - 1] == '\r' then line[..|line| - 1] else line
  }

  function Seen(line: string, last: Option<Activity>): Option<Activity> {
    var activity := ParseLine(WithoutReturn(line));
    if activity.Some? then activity else last
  }

  /** Reading the log one character at a time. */
  function Feed(p: Progress, text: string): Progress
    decreases |text|
  {
    if text == "" then p
    else if text[0] == '\n' then Feed(Progress("", Seen(p.partial, p.last)), text[1..])
    else Feed(Progress(p.partial + [text[0]], p.last), text[1..])
  }

  /** What arrives in two pieces has the same effect as what arrives whole. */
  lemma {:induction false} FeedTwice(p: Progress, a: string, b: string)
    ensures Feed(p, a + b) == Feed(Feed(p, a), b)
    decreases |a|
  {
    if a == "" {
      assert a + b == b;
    } else {
      assert (a + b)[1..] == a[1..] + b;
      if a[0] == '\n' {
        FeedTwice(Progress("", Seen(p.partial, p.last)), a[1..], b);
      } else {
        FeedTwice(Progress(p.partial + [a[0]], p.last), a[1..], b);
      }
    }
  }

  function FeedAll(p: Progress, chunks: seq<string>): Progress
    decreases |chunks|
  {
    if chunks == [] then p else FeedAll(Feed(p, chunks[0]), chunks[1..])
  }

  function Joined(chunks: seq<string>): string {
    if chunks == [] then "" else chunks[0] + Joined(chunks[1..])
  }

  /** However the log is cut into chunks, the monitor ends up in the same state. */
  lemma {:induction false} ChunksDoNotMatter(p: Progress, chunks: seq<string>)
    ensures FeedAll(p, chunks) == Feed(p, Joined(chunks))
    decreases |chunks|
  {
    if chunks != [] {
      FeedTwice(p, chunks[0], Joined(chunks[1..]));
      ChunksDoNotMatter(Feed(p, chunks[0]), chunks[1..]);
    }
  }

  lemma {:induction false} FeedLine(p: Progress, line: string, rest: string)
    requires '\n' !in line
    ensures Feed(p, line + "\n" + rest) == Feed(Progress("", Seen(p.partial + line, p.last)), rest)
    ensures Feed(p, line) == Progress(p.partial + line, p.last)
    decreases |line|
  {
    var text := line + "\n" + rest;
    if line == "" {
      assert text == "\n" + rest && text[1..] == rest;
      assert p.partial + line == p.partial;
    } else {
      assert text[1..] == line[1..] + "\n" + rest;
      assert p.partial + line == p.partial + [line[0]] + line[1..];
      assert line[0] in line;
      FeedLine(Progress(p.partial + [line[0]], p.last), line[1..], rest);
    }
  }

  /** An event logged after a complete line becomes the latest activity, in however many chunks
      it is read. */
  lemma LoggedIsSeen(p: Progress, header: string, event: string, fields: seq<Field>, chunks: seq<string>)
    requires p.partial == "" && ' ' !in event && forall i :: 0 <= i < |fields| ==> IsField(fields[i])
    requires IsHeader(header, RenderEvent(event, fields)) && ActivityOf(event, Meant(fields)).Some?
    requires var line := header + RenderEvent(event, fields);
             '\n' !in line && line[|line| - 1] != '\r' && Joined(chunks) == line + "\n"
    ensures FeedAll(p, chunks) == Progress("", ActivityOf(event, Meant(fields)))
  {
    var line := header + RenderEvent(event, fields);
    ChunksDoNotMatter(p, chunks);
    FeedLine(p, line, "");
    assert line + "\n" + "" == line + "\n" && p.partial + line == line;
    LineRoundTrip(header, event, fields);
  }

  /** A line that ends with a carriage return says what it says without. */
  lemma CarriageReturnIsDropped(p: Progress, line: string, rest: string)
    requires '\n' !in line && (p.partial + line == "" || (p.partial + line)[|p.partial + line| - 1] != '\r')
    ensures Feed(p, line + "\r" + "\n" + rest) == Feed(p, line + "\n" + rest)
  {
    FeedLine(p, line, rest);
    FeedLine(p, line + "\r", rest);
    var whole := p.partial + line;
    assert p.partial + (line + "\r") == whole + "\r" && (whole + "\r")[..|whole|] == whole;
  }

  /** A kept partial line continues as if it had come with the new text. */
  lemma Resumed(p: Progress, text: string)
    requires '\n' !in p.partial
    ensures Feed(p, text) == Feed(Progress("", p.last), p.partial + text)
  {
    FeedLine(Progress("", p.last), p.partial, "");
    Empty(p.partial);
    FeedTwice(Progress("", p.last), p.partial, text);
  }

  lemma Unfinished(last: Option<Activity>, line: string)
    requires '\n' !in line
    ensures Feed(Progress("", last), line) == Progress(line, last)
  {
    FeedLine(Progress("", last), line, "");
    Empty(line);
  }

  class StatusMonitor {
    var partial: string
    var last: Option<Activity>

    constructor ()
      ensures View() == Progress("", None)
    {
      partial, last := "", None;
    }

    ghost function View(): Progress
      reads this
    {
      Progress(partial, last)
    }

    /** Between reads only an unfinished line is kept. */
    ghost predicate Valid()
      reads this
    {
      '\n' !in partial
    }

    /** Where the last complete line ends. */
    static method LastLineEnd(s: string) returns (end: nat)
      ensures end <= |s| && '\n' !in s[end..] && (end > 0 ==> s[end - 1] == '\n')
    {
      end := |s|;
      while end > 0 && s[end - 1] != '\n'
        invariant 0 <= end <= |s| && '\n' !in s[end..]
      {
        assert s[end - 1..] == [s[end - 1]] + s[end..];
        end := end - 1;
      }
    }

    /** Feed text that may end in the middle of a line. */
    method Absorb(text: string) returns (changed: bool)
      requires Valid()
      modifies this
      ensures Valid() && View() == Feed(old(View()), text)
      ensures !changed ==> last == old(last)
    {
      Resumed(View(), text);
      partial := partial + text;
      ghost var all := partial;
      var end := LastLineEnd(partial);
      Cut(all, end);
      FeedTwice(Progress("", last), all[..end], all[end..]);
      if end == 0 {
        Unfinished(last, all);
        return false;
      }
      var complete := partial[..end];
      partial := partial[end..];
      changed := ReadLines(complete);
      Unfinished(last, partial);
    }

    /** Every line of text that ends with one. */
    method ReadLines(complete: string) returns (changed: bool)
      requires complete != "" && complete[|complete| - 1] == '\n'
      modifies `last
      ensures Feed(Progress("", old(last)), complete) == Progress("", last)
      ensures !changed ==> last == old(last)
    {
      changed := false;
      var rest := complete;
      while rest != ""
        invariant rest != "" ==> rest[|rest| - 1] == '\n'
        invariant Feed(Progress("", old(last)), complete) == Feed(Progress("", last), rest)
        invariant !changed ==> last == old(last)
        decreases |rest|
      {
        assert rest[|rest| - 1] in rest;
        var end := Find(rest, '\n').value;
        var line := rest[..end];
        assert rest == line + "\n" + rest[end + 1..];
        FeedLine(Progress("", last), line, rest[end + 1..]);
        assert "" + line == line;
        var activity := ParseLine(WithoutReturn(line));
        if activity.Some? {
          last := activity;
          changed := true;
        }
        rest := rest[end + 1..];
      }
    }
  }
}

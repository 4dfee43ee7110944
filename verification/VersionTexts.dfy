/** Where a package's version sits in a manifest or a lockfile: one value in a JSON document, or
    the quoted value on one line of a TOML or Go file. Writing and reading it back. */
module VersionTexts {
  import opened Wrappers

  datatype Doc = Obj(members: map<string, Doc>) | Str(text: string) | Other(code: int)

  /** A file's content. Lines are the text split at newlines, so the empty text is one empty
      line. */
  datatype Text = JsonText(doc: Doc) | LineText(lines: seq<string>)

  predicate IsEmpty(t: Text) {
    t.LineText? && (t.lines == [] || t.lines == [""])
  }

  datatype Target = NpmManifest | NpmLock(key: string) | PypiManifest | PypiLock(name: string) | GoConst | NoLock

  // ---------------------------------------------------------------- quoted values on a line

  datatype Split = Split(head: string, value: string, tail: string)

  function Rewritten(s: Split, v: string): string {
    s.head + v + s.tail
  }

  predicate StartsWith(line: string, prefix: string) {
    |prefix| <= |line| && line[..|prefix|] == prefix
  }

  function QuoteAt(s: string): (n: nat)
    ensures n <= |s| && '"' !in s[..n] && (n < |s| ==> s[n] == '"')
  {
    if s == [] || s[0] == '"' then 0
    else
      var n := 1 + QuoteAt(s[1..]);
      assert s[..n] == [s[0]] + s[1..][..n - 1];
      n
  }

  /** The value between position `n` of a line and the next quote. */
  function SplitAt(line: string, n: nat): Option<Split>
    requires n <= |line|
  {
    var rest := line[n..];
    var m := QuoteAt(rest);
    if m == |rest| then None else Some(Split(line[..n], rest[..m], rest[m..]))
  }

  predicate Blank(c: char) {
    c in " \t\r\U{000B}\U{000C}"
  }

  /** The first position from `i` on that is not blank. */
  function Skip(s: string, i: nat): (n: nat)
    requires i <= |s|
    ensures i <= n <= |s|
    decreases |s| - i
  {
    if i == |s| || !Blank(s[i]) then i else Skip(s, i + 1)
  }

  lemma {:induction false} SkipKeeps(s: string, t: string, i: nat)
    requires i <= |s| && Skip(s, i) < |s| && Skip(s, i) < |t| && forall k :: 0 <= k <= Skip(s, i) ==> s[k] == t[k]
    ensures Skip(t, i) == Skip(s, i)
    decreases |s| - i
  {
    assert s[i] == t[i];
    if Blank(s[i]) {
      SkipKeeps(s, t, i + 1);
    }
  }

  /** How far `version`, blanks, `=`, blanks, a quote reach. */
  function KeyLength(line: string): (n: Option<nat>)
    ensures n.Some? ==> 0 < n.value <= |line|
  {
    if !StartsWith(line, "version") then None
    else
      var i := Skip(line, 7);
      if i == |line| || line[i] != '=' then None
      else
        var j := Skip(line, i + 1);
        if j == |line| || line[j] != '"' then None else Some(j + 1)
  }

  lemma KeyLengthKeeps(line: string, other: string)
    requires KeyLength(line).Some? && KeyLength(line).value <= |other|
    requires forall k :: 0 <= k < KeyLength(line).value ==> line[k] == other[k]
    ensures KeyLength(other) == KeyLength(line)
  {
    hide Blank;
    var i := Skip(line, 7);
    var j := Skip(line, i + 1);
    assert line[..7] == other[..7];
    SkipKeeps(line, other, 7);
    SkipKeeps(line, other, i + 1);
  }

  datatype Form = ConstLine | VersionKey | LockVersion

  const CONST_PREFIX := "const Version = \""
  const LOCK_PREFIX := "version = \""

  function FormLength(form: Form, line: string): (n: Option<nat>)
    ensures n.Some? ==> n.value <= |line|
  {
    match form
    case ConstLine => if StartsWith(line, CONST_PREFIX) then Some(|CONST_PREFIX|) else None
    case LockVersion => if StartsWith(line, LOCK_PREFIX) then Some(|LOCK_PREFIX|) else None
    case VersionKey => KeyLength(line)
  }

  function Recognize(form: Form, line: string): Option<Split> {
    var n := FormLength(form, line);
    if n.None? then None else SplitAt(line, n.value)
  }

  lemma FormLengthKeeps(form: Form, line: string, rest: string)
    requires FormLength(form, line).Some?
    ensures FormLength(form, line[..FormLength(form, line).value] + rest) == FormLength(form, line)
  {
    hide KeyLength;
    var n := FormLength(form, line).value;
    var other := line[..n] + rest;
    if form.VersionKey? {
      KeyLengthKeeps(line, other);
    } else {
      assert other[..n] == line[..n];
    }
  }

  lemma QuoteAfter(v: string, tail: string)
    requires '"' !in v && tail != "" && tail[0] == '"'
    ensures QuoteAt(v + tail) == |v| && (v + tail)[..|v|] == v && (v + tail)[|v|..] == tail
  {
  }

  lemma SplitAtSplits(line: string, n: nat, v: string)
    requires n <= |line| && SplitAt(line, n).Some? && '"' !in v
    ensures var s := SplitAt(line, n).value;
            && s.head == line[..n] && '"' !in s.value && s.head + s.value + s.tail == line
            && SplitAt(line[..n] + (v + s.tail), n) == Some(Split(s.head, v, s.tail))
  {
    hide QuoteAt;
    var rest := line[n..];
    var s := SplitAt(line, n).value;
    assert line == line[..n] + rest && rest == s.value + s.tail;
    QuoteAfter(v, s.tail);
    var changed := line[..n] + (v + s.tail);
    assert changed[n..] == v + s.tail && changed[..n] == line[..n];
  }

  /** A line with a recognized value, rewritten, is recognized again with the new value. */
  lemma RecognizeRewritten(form: Form, line: string, v: string)
    requires Recognize(form, line).Some? && '"' !in v
    ensures var s := Recognize(form, line).value;
            && Rewritten(s, s.value) == line && '"' !in s.value
            && Recognize(form, Rewritten(s, v)) == Some(Split(s.head, v, s.tail))
            && line != "" && Rewritten(s, v) != "" && Rewritten(s, v)[0] == line[0]
  {
    hide FormLength, SplitAt;
    var n := FormLength(form, line).value;
    SplitAtSplits(line, n, v);
    HeadIsSome(form, line);
    var s := SplitAt(line, n).value;
    assert Rewritten(s, v) == line[..n] + (v + s.tail);
    FormLengthKeeps(form, line, v + s.tail);
  }

  lemma HeadIsSome(form: Form, line: string)
    requires FormLength(form, line).Some?
    ensures FormLength(form, line).value > 0
  {
  }

  // ---------------------------------------------------------------- which line

  function Matches(form: Form, lines: seq<string>): nat {
    if lines == [] then 0 else (if Recognize(form, lines[0]).Some? then 1 else 0) + Matches(form, lines[1..])
  }

  function FirstMatch(form: Form, lines: seq<string>): (n: nat)
    ensures n <= |lines| && (n < |lines| ==> Recognize(form, lines[n]).Some?)
    ensures forall i :: 0 <= i < n ==> Recognize(form, lines[i]).None?
  {
    if lines == [] || Recognize(form, lines[0]).Some? then 0 else 1 + FirstMatch(form, lines[1..])
  }

  /** The only line of a form, as re.subn with a count of one finds it. */
  function Only(form: Form, lines: seq<string>): Option<nat> {
    if Matches(form, lines) == 1 && FirstMatch(form, lines) < |lines| then Some(FirstMatch(form, lines)) else None
  }

  predicate ProjectHeader(line: string) {
    StartsWith(line, "[project]") && forall i :: 9 <= i < |line| ==> line[i] in " \t"
  }

  predicate Opens(line: string) {
    line != "" && line[0] == '['
  }

  function HeaderAt(lines: seq<string>): (n: nat)
    ensures n <= |lines| && (n < |lines| ==> ProjectHeader(lines[n]))
    ensures forall i :: 0 <= i < n ==> !ProjectHeader(lines[i])
  {
    if lines == [] || ProjectHeader(lines[0]) then 0 else 1 + HeaderAt(lines[1..])
  }

  /** The lines up to the next table. */
  function TableLength(lines: seq<string>): (n: nat)
    ensures n <= |lines| && (n < |lines| ==> Opens(lines[n]))
    ensures forall i :: 0 <= i < n ==> !Opens(lines[i])
  {
    if lines == [] || Opens(lines[0]) then 0 else 1 + TableLength(lines[1..])
  }

  function Table(lines: seq<string>): seq<string> {
    lines[..TableLength(lines)]
  }

  function NameLine(name: string): string {
    "name = \"" + name + "\""
  }

  predicate LockPair(name: string, lines: seq<string>, i: nat)
    requires i < |lines|
  {
    lines[i] == NameLine(name) && i + 1 < |lines| && Recognize(LockVersion, lines[i + 1]).Some?
  }

  function FirstPair(name: string, lines: seq<string>, from: nat): (n: nat)
    requires from <= |lines|
    ensures from <= n <= |lines| && (n < |lines| ==> LockPair(name, lines, n))
    ensures forall i :: from <= i < n ==> !LockPair(name, lines, i)
    decreases |lines| - from
  {
    if from == |lines| || LockPair(name, lines, from) then from else FirstPair(name, lines, from + 1)
  }

  function TargetForm(t: Target): Form {
    match t
    case GoConst => ConstLine
    case PypiLock(_) => LockVersion
    case _ => VersionKey
  }

  /** The line a writer edits: none when there is no such line, or more than one. */
  function Spot(t: Target, lines: seq<string>): (n: Option<nat>)
    ensures n.Some? ==> n.value < |lines| && Recognize(TargetForm(t), lines[n.value]).Some?
  {
    match t
    case GoConst => Only(ConstLine, lines)
    case PypiManifest =>
      var h := HeaderAt(lines);
      if h == |lines| then None
      else
        var table := Table(lines[h + 1..]);
        if Only(VersionKey, table).None? then None
        else
          assert table[Only(VersionKey, table).value] == lines[h + 1 + Only(VersionKey, table).value];
          Some(h + 1 + Only(VersionKey, table).value)
    case PypiLock(name) =>
      var i := FirstPair(name, lines, 0);
      if i == |lines| || FirstPair(name, lines, i + 1) < |lines| then None else Some(i + 1)
    case _ => None
  }

  // ---------------------------------------------------------------- the writers and readers

  function WriteText(t: Target, text: Text, v: string): Option<Text> {
    match t
    case NpmManifest =>
      if text.JsonText? && text.doc.Obj? then Some(JsonText(Obj(text.doc.members["version" := Str(v)]))) else None
    case NpmLock(key) =>
      if text.JsonText? && LockEntry(text.doc, key).Some? then Some(JsonText(WithEntry(text.doc, key, v))) else None
    case _ =>
      if text.JsonText? || Spot(t, text.lines).None? then None
      else
        var i := Spot(t, text.lines).value;
        Some(LineText(text.lines[i := Rewritten(Recognize(TargetForm(t), text.lines[i]).value, v)]))
  }

  /** packages[key] of a lockfile. */
  function LockEntry(doc: Doc, key: string): Option<map<string, Doc>> {
    if doc.Obj? && "packages" in doc.members && doc.members["packages"].Obj? && key in doc.members["packages"].members
       && doc.members["packages"].members[key].Obj?
    then Some(doc.members["packages"].members[key].members) else None
  }

  function WithEntry(doc: Doc, key: string, v: string): Doc
    requires LockEntry(doc, key).Some?
  {
    var packages := doc.members["packages"].members;
    Obj(doc.members["packages" := Obj(packages[key := Obj(LockEntry(doc, key).value["version" := Str(v)])])])
  }

  function StringAt(m: map<string, Doc>): Option<string> {
    if "version" in m && m["version"].Str? then Some(m["version"].text) else None
  }

  predicate HoldsName(name: string, lines: seq<string>, i: nat)
    requires i < |lines|
  {
    lines[i] == "[[package]]" && NameLine(name) in Table(lines[i + 1..])
  }

  /** The line of the version key in the first [[package]] block that holds a name. */
  function LockSpot(name: string, lines: seq<string>, from: nat): (n: Option<nat>)
    requires from <= |lines|
    ensures n.Some? ==> n.value < |lines| && Recognize(VersionKey, lines[n.value]).Some?
    decreases |lines| - from
  {
    if from == |lines| then None
    else if !HoldsName(name, lines, from) then LockSpot(name, lines, from + 1)
    else
      var table := Table(lines[from + 1..]);
      var k := FirstMatch(VersionKey, table);
      if k == |table| then None
      else
        assert table[k] == lines[from + 1 + k];
        Some(from + 1 + k)
  }

  function LockRead(name: string, lines: seq<string>): Option<string> {
    var i := LockSpot(name, lines, 0);
    if i.None? then None else Some(Recognize(VersionKey, lines[i.value]).value.value)
  }

  function KeyValue(table: seq<string>): Option<string> {
    var i := FirstMatch(VersionKey, table);
    if i == |table| then None else Some(Recognize(VersionKey, table[i]).value.value)
  }

  function ReadText(t: Target, text: Text): Option<string> {
    match t
    case NpmManifest => if text.JsonText? && text.doc.Obj? then StringAt(text.doc.members) else None
    case NpmLock(key) =>
      if text.JsonText? && LockEntry(text.doc, key).Some? then StringAt(LockEntry(text.doc, key).value) else None
    case GoConst =>
      if text.JsonText? || Only(ConstLine, text.lines).None? then None
      else Some(Recognize(ConstLine, text.lines[Only(ConstLine, text.lines).value]).value.value)
    case PypiManifest =>
      if text.JsonText? || HeaderAt(text.lines) == |text.lines| then None
      else KeyValue(Table(text.lines[HeaderAt(text.lines) + 1..]))
    case PypiLock(name) => if text.JsonText? then None else LockRead(name, text.lines)
    case NoLock => None
  }
}

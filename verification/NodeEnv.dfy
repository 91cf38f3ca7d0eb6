/**
The administrator's rewrite of node.env against the dotenv parser that reads the result.  A file is
a sequence of Unicode characters; limits count its UTF-8 bytes.
 */
module NodeEnv {
  import opened Wrappers

  const MAX_BYTES: nat := 0x10_0000
  const MAX_LINES: nat := 4096
  const MAX_ASSIGNMENTS: nat := 256

  // ---------- Text ----------

  predicate IsSpace(c: char) {
    || '\t' <= c <= '\r' || c == ' ' || c == '\U{0085}' || c == '\U{00A0}' || c == '\U{1680}'
    || '\U{2000}' <= c <= '\U{200A}' || c == '\U{2028}' || c == '\U{2029}' || c == '\U{202F}' || c == '\U{205F}' || c == '\U{3000}'
  }

  predicate IsControl(c: char) {
    c < ' ' || '\U{007F}' <= c <= '\U{009F}'
  }

  function Utf8Len(c: char): nat {
    if c < '\U{0080}' then 1 else if c < '\U{0800}' then 2 else if c < '\U{10000}' then 3 else 4
  }

  function ByteLen(s: string): nat {
    if s == "" then 0 else Utf8Len(s[0]) + ByteLen(s[1..])
  }

  function TrimRight(s: string): string {
    if s != "" && IsSpace(s[|s| - 1]) then TrimRight(s[..|s| - 1]) else s
  }

  function TrimLeft(s: string): string {
    if s != "" && IsSpace(s[0]) then TrimLeft(s[1..]) else s
  }

  function Trim(s: string): string {
    TrimLeft(TrimRight(s))
  }

  /** The first place of c at or after i, or the length. */
  function IndexFrom(s: string, c: char, i: nat): (k: nat)
    requires i <= |s|
    ensures i <= k <= |s| && c !in s[i..k] && (k < |s| ==> s[k] == c)
    decreases |s| - i
  {
    if i == |s| || s[i] == c then i
    else
      var k := IndexFrom(s, c, i + 1);
      assert s[i..k] == [s[i]] + s[i + 1..k];
      k
  }

  function Index(s: string, c: char): (k: nat)
    ensures k <= |s| && c !in s[..k] && (k < |s| ==> s[k] == c)
  {
    assert forall k :: 0 <= k <= |s| ==> s[0..k] == s[..k];
    IndexFrom(s, c, 0)
  }

  lemma {:induction false} IndexAt(a: string, c: char, b: string)
    requires c !in a
    ensures Index(a + [c] + b, c) == |a|
  {
    var s := a + [c] + b;
    var k := Index(s, c);
    assert s[|a|] == c;
    assert s[..|a|] == a;
  }

  // ---------- Lines ----------

  /** The lines a scanner sees: split at newlines, no empty last line. */
  function RawLines(s: string): seq<string>
    decreases |s|
  {
    if s == "" then []
    else
      var k := Index(s, '\n');
      if k == |s| then [s] else [s[..k]] + RawLines(s[k + 1..])
  }

  /** A carriage return before the newline is dropped, once. */
  function DropCR(line: string): string {
    if line != "" && line[|line| - 1] == '\r' then line[..|line| - 1] else line
  }

  function Lines(s: string): (out: seq<string>)
    ensures |out| == |RawLines(s)|
  {
    seq(|RawLines(s)|, i requires 0 <= i < |RawLines(s)| => DropCR(RawLines(s)[i]))
  }

  function Join(lines: seq<string>): string {
    if lines == [] then "" else lines[0] + ['\n'] + Join(lines[1..])
  }

  predicate OneLine(line: string) {
    '\n' !in line
  }

  lemma {:induction false} RawLinesOfJoin(lines: seq<string>)
    requires forall i :: 0 <= i < |lines| ==> OneLine(lines[i])
    ensures RawLines(Join(lines)) == lines
  {
    if lines != [] {
      var s := Join(lines);
      IndexAt(lines[0], '\n', Join(lines[1..]));
      assert s[..|lines[0]|] == lines[0] && s[|lines[0]| + 1..] == Join(lines[1..]);
      RawLinesOfJoin(lines[1..]);
    }
  }

  lemma {:induction false} RawLinesAreLines(s: string)
    ensures forall i :: 0 <= i < |RawLines(s)| ==> OneLine(RawLines(s)[i])
    decreases |s|
  {
    if s != "" && Index(s, '\n') < |s| {
      RawLinesAreLines(s[Index(s, '\n') + 1..]);
    }
  }

  lemma {:induction false} LinesAreLines(s: string)
    ensures forall i :: 0 <= i < |Lines(s)| ==> OneLine(Lines(s)[i])
  {
    RawLinesAreLines(s);
  }

  // ---------- What a line says ----------

  datatype Line = Blank | Bad | Entry(key: string, value: string)

  function StripExport(s: string): string {
    if |s| >= 7 && s[..7] == "export " then s[7..] else s
  }

  function Assignment(s: string): Line {
    var k := Index(s, '=');
    if k == |s| || Trim(s[..k]) == "" then Bad else Entry(Trim(s[..k]), Trim(s[k + 1..]))
  }

  function Classify(line: string): Line {
    var t := Trim(line);
    if t == "" || t[0] == '#' then Blank else Assignment(StripExport(t))
  }

  function Unquote(value: string): string {
    if |value| < 2 then value else Unescape(if Quoted(value) then value[1..|value| - 1] else value)
  }

  predicate Quoted(value: string)
    requires |value| >= 2
  {
    (value[0] == '"' && value[|value| - 1] == '"') || (value[0] == '\'' && value[|value| - 1] == '\'')
  }

  /** Every backslash followed by n becomes a newline. */
  function Unescape(s: string): string {
    if |s| < 2 then s
    else if s[0] == '\\' && s[1] == 'n' then ['\n'] + Unescape(s[2..])
    else [s[0]] + Unescape(s[1..])
  }

  lemma {:induction false} ClassifyDropCR(line: string)
    ensures Classify(DropCR(line)) == Classify(line)
  {
    if line != "" && line[|line| - 1] == '\r' {
      assert TrimRight(line) == TrimRight(line[..|line| - 1]);
    }
  }

  /** An administrator's key: capitals and underscores. */
  predicate PlainKey(key: string) {
    key != "" && forall i :: 0 <= i < |key| ==> 'A' <= key[i] <= 'Z' || key[i] == '_'
  }

  predicate PlainValue(value: string) {
    && (forall i :: 0 <= i < |value| ==> !IsSpace(value[i]) && !IsControl(value[i]))
    && (forall i :: 0 <= i < |value| - 1 ==> !(value[i] == '\\' && value[i + 1] == 'n'))
  }

  lemma {:induction false} TrimNothing(s: string)
    requires s == "" || (!IsSpace(s[0]) && !IsSpace(s[|s| - 1]))
    ensures Trim(s) == s
  {
  }

  /** A written assignment says what it was written to say. */
  lemma {:induction false} ClassifyWritten(key: string, value: string)
    requires PlainKey(key) && PlainValue(value)
    ensures Classify(key + "=" + value) == Entry(key, value) && OneLine(key + "=" + value)
  {
    var line := key + "=" + value;
    assert line[0] == key[0];
    assert line[|line| - 1] == if value == "" then '=' else value[|value| - 1];
    TrimNothing(line);
    NothingToStrip(line);
    AssignmentWritten(key, value);
  }

  lemma {:induction false} NothingToStrip(s: string)
    requires s != "" && s[0] != 'e'
    ensures StripExport(s) == s
  {
    assert |s| >= 7 ==> s[..7][0] == s[0];
  }

  lemma {:induction false} AssignmentWritten(key: string, value: string)
    requires PlainKey(key) && PlainValue(value)
    ensures Assignment(key + "=" + value) == Entry(key, value)
  {
    var line := key + "=" + value;
    assert line == key + ['='] + value;
    IndexAt(key, '=', value);
    assert line[..|key|] == key && line[|key| + 1..] == value;
    TrimNothing(key);
    TrimNothing(value);
  }

  /** How a line is read and a value unquoted. */
  datatype Grammar = Grammar(classify: string -> Line, unquote: string -> string)

  const DOTENV := Grammar(Classify, Unquote)

  /** Written assignments read back, and a carriage return at the end changes nothing. */
  ghost predicate Lawful(g: Grammar) {
    && (forall line :: g.classify(DropCR(line)) == g.classify(line))
    && (forall key, value :: PlainKey(key) && PlainValue(value) ==> g.classify(key + "=" + value) == Entry(key, value))
  }

  lemma {:induction false} DotenvIsLawful()
    ensures Lawful(DOTENV)
  {
    forall line ensures DOTENV.classify(DropCR(line)) == DOTENV.classify(line) {
      ClassifyDropCR(line);
    }
    forall key, value | PlainKey(key) && PlainValue(value) ensures DOTENV.classify(key + "=" + value) == Entry(key, value) {
      ClassifyWritten(key, value);
    }
  }

  function Said(g: Grammar, lines: seq<string>): (out: seq<Line>)
    ensures |out| == |lines|
  {
    seq(|lines|, i requires 0 <= i < |lines| => g.classify(lines[i]))
  }

  // ---------- Parsing ----------

  /** What the lines bind, the last binding of a key winning. */
  function Values(g: Grammar, lines: seq<Line>): map<string, string> {
    if lines == [] then map[]
    else
      var n := |lines| - 1;
      Bind(g, Values(g, lines[..n]), lines[n])
  }

  function Bind(g: Grammar, values: map<string, string>, line: Line): map<string, string> {
    if line.Entry? then values[line.key := g.unquote(line.value)] else values
  }

  function Entries(lines: seq<Line>): nat {
    if lines == [] then 0
    else
      var n := |lines| - 1;
      Entries(lines[..n]) + if lines[n].Entry? then 1 else 0
  }

  predicate NoBadLine(lines: seq<Line>) {
    forall i :: 0 <= i < |lines| ==> !lines[i].Bad?
  }

  /** A line as long as the scanner's buffer stops it. */
  predicate Scannable(s: string) {
    forall i :: 0 <= i < |RawLines(s)| ==> ByteLen(RawLines(s)[i]) < MAX_BYTES
  }

  predicate WithinLimits(g: Grammar, raw: string) {
    ByteLen(raw) <= MAX_BYTES && |Lines(raw)| <= MAX_LINES && Entries(Said(g, Lines(raw))) <= MAX_ASSIGNMENTS && Scannable(raw)
  }

  lemma {:induction false} EntriesMonotone(lines: seq<Line>, i: nat)
    requires i <= |lines|
    ensures Entries(lines[..i]) <= Entries(lines)
    decreases |lines| - i
  {
    if i < |lines| {
      assert lines[..i + 1][..i] == lines[..i];
      EntriesMonotone(lines, i + 1);
    } else {
      assert lines[..i] == lines;
    }
  }

  lemma {:induction false} PrefixNext(g: Grammar, lines: seq<Line>, i: nat)
    requires i < |lines|
    ensures Values(g, lines[..i + 1]) == Bind(g, Values(g, lines[..i]), lines[i])
    ensures Entries(lines[..i + 1]) == Entries(lines[..i]) + if lines[i].Entry? then 1 else 0
  {
    assert lines[..i + 1][..i] == lines[..i];
  }

  /** The lines in order, within the limits on lines and assignments. */
  method ParseLines(g: Grammar, lines: seq<string>) returns (values: Option<map<string, string>>)
    ensures values.Some? <==> |lines| <= MAX_LINES && Entries(Said(g, lines)) <= MAX_ASSIGNMENTS && NoBadLine(Said(g, lines))
    ensures values.Some? ==> values.value == Values(g, Said(g, lines))
  {
    ghost var said := Said(g, lines);
    var bound, assignments := map[], 0;
    for i := 0 to |lines|
      invariant i <= MAX_LINES && bound == Values(g, said[..i]) && assignments == Entries(said[..i]) <= MAX_ASSIGNMENTS
      invariant forall k :: 0 <= k < i ==> !said[k].Bad?
    {
      if i + 1 > MAX_LINES {
        return None;
      }
      EntriesMonotone(said, i + 1);
      PrefixNext(g, said, i);
      var line := g.classify(lines[i]);
      assert line == said[i];
      if line.Blank? {
        continue;
      }
      if line.Bad? {
        return None;
      }
      assignments := assignments + 1;
      if assignments > MAX_ASSIGNMENTS {
        return None;
      }
      bound := bound[line.key := g.unquote(line.value)];
    }
    assert said[..|lines|] == said;
    values := Some(bound);
  }

  /** The parser of the node. */
  method ParseDotEnvData(g: Grammar, raw: string) returns (values: Option<map<string, string>>)
    ensures values.Some? <==> WithinLimits(g, raw) && NoBadLine(Said(g, Lines(raw)))
    ensures values.Some? ==> values.value == Values(g, Said(g, Lines(raw)))
  {
    if ByteLen(raw) > MAX_BYTES {
      return None;
    }
    values := ParseLines(g, Lines(raw));
    if !Scannable(raw) {
      values := None;
    }
  }

  // ---------- Rewriting ----------

  /** A grammar, the editable keys in their order, the assignments to write and the keys to remove. */
  datatype Update = Update(g: Grammar, keys: seq<string>, assign: map<string, string>, remove: set<string>)

  /** What a validated update satisfies. */
  ghost predicate Valid(u: Update) {
    && Lawful(u.g)
    && (forall key :: key in u.keys ==> PlainKey(key))
    && (forall key :: key in u.assign ==> key in u.keys && key !in u.remove && PlainValue(u.assign[key]))
  }

  function Written(u: Update, key: string): string
    requires key in u.assign
  {
    key + "=" + u.assign[key]
  }

  /** What becomes of a line that says this. */
  function NewLine(u: Update, line: string, said: Line): Option<string> {
    if !said.Entry? then Some(line)
    else if said.key in u.remove then None
    else if said.key in u.assign then Some(Written(u, said.key))
    else Some(line)
  }

  function Kept(u: Update, lines: seq<string>): seq<string> {
    if lines == [] then []
    else
      var n := |lines| - 1;
      var line := NewLine(u, lines[n], u.g.classify(lines[n]));
      Kept(u, lines[..n]) + if line.None? then [] else [line.value]
  }

  /** The assigned keys that some line already binds. */
  function Seen(u: Update, lines: seq<string>): set<string> {
    if lines == [] then {}
    else
      var n := |lines| - 1;
      var said := u.g.classify(lines[n]);
      Seen(u, lines[..n]) + if said.Entry? && said.key !in u.remove && said.key in u.assign then {said.key} else {}
  }

  function Appended(u: Update, keys: seq<string>, seen: set<string>): seq<string> {
    if keys == [] then []
    else
      var n := |keys| - 1;
      Appended(u, keys[..n], seen) + if keys[n] in u.assign && keys[n] !in seen then [Written(u, keys[n])] else []
  }

  function NewLines(u: Update, lines: seq<string>): seq<string> {
    Kept(u, lines) + Appended(u, u.keys, Seen(u, lines))
  }

  function Rewritten(u: Update, input: string): string {
    Join(NewLines(u, Lines(input)))
  }

  predicate DistinctKeys(said: seq<Line>) {
    forall i, j :: 0 <= i < j < |said| && said[i].Entry? && said[j].Entry? ==> said[i].key != said[j].key
  }

  // ---------- The rewrite commutes with the parser ----------

  lemma {:induction false} WrittenLine(u: Update, key: string)
    requires Valid(u) && key in u.assign
    ensures u.g.classify(Written(u, key)) == Entry(key, u.assign[key])
    ensures OneLine(Written(u, key)) && DropCR(Written(u, key)) == Written(u, key)
  {
    var line, value := Written(u, key), u.assign[key];
    assert line[|line| - 1] == if value == "" then '=' else value[|value| - 1];
  }

  lemma {:induction false} ValuesSnoc(g: Grammar, lines: seq<string>, line: string)
    ensures Said(g, lines + [line]) == Said(g, lines) + [g.classify(line)]
    ensures Values(g, Said(g, lines + [line])) == Bind(g, Values(g, Said(g, lines)), g.classify(line))
  {
    assert Said(g, lines + [line]) == Said(g, lines) + [g.classify(line)];
    PrefixNext(g, Said(g, lines + [line]), |lines|);
    assert Said(g, lines + [line])[..|lines|] == Said(g, lines);
    assert Said(g, lines + [line])[..|lines| + 1] == Said(g, lines + [line]);
  }

  /** The bindings with the removed keys gone and the assigned keys among them rebound. */
  function Applied(u: Update, values: map<string, string>): map<string, string> {
    map key | key in values && key !in u.remove :: if key in u.assign then u.g.unquote(u.assign[key]) else values[key]
  }

  lemma {:induction false} AppliedBind(u: Update, values: map<string, string>, line: string)
    requires Valid(u)
    ensures var said := u.g.classify(line);
      var now := NewLine(u, line, said);
      Applied(u, Bind(u.g, values, said)) == if now.None? then Applied(u, values) else Bind(u.g, Applied(u, values), u.g.classify(now.value))
  {
    var said := u.g.classify(line);
    if said.Entry? && said.key !in u.remove && said.key in u.assign {
      WrittenLine(u, said.key);
    }
  }

  lemma {:induction false} KeptValues(u: Update, lines: seq<string>)
    requires Valid(u)
    ensures Values(u.g, Said(u.g, Kept(u, lines))) == Applied(u, Values(u.g, Said(u.g, lines)))
    decreases |lines|
  {
    if lines != [] {
      var n := |lines| - 1;
      var before, line := lines[..n], lines[n];
      KeptValues(u, before);
      ValuesSnoc(u.g, before, line);
      assert before + [line] == lines;
      AppliedBind(u, Values(u.g, Said(u.g, before)), line);
      var now := NewLine(u, line, u.g.classify(line));
      if now.Some? {
        ValuesSnoc(u.g, Kept(u, before), now.value);
      } else {
        assert Kept(u, before) + [] == Kept(u, before);
      }
    }
  }

  lemma {:induction false} SeenMeans(u: Update, lines: seq<string>)
    requires Valid(u)
    ensures Seen(u, lines) == u.assign.Keys * Values(u.g, Said(u.g, lines)).Keys
    decreases |lines|
  {
    if lines != [] {
      var n := |lines| - 1;
      SeenMeans(u, lines[..n]);
      ValuesSnoc(u.g, lines[..n], lines[n]);
      assert lines[..n] + [lines[n]] == lines;
    }
  }

  /** The keys of the update that were not seen. */
  function Fresh(u: Update, keys: seq<string>, seen: set<string>): map<string, string> {
    map key | key in u.assign && key in keys && key !in seen :: u.g.unquote(u.assign[key])
  }

  lemma {:induction false} AppendedValues(u: Update, kept: seq<string>, keys: seq<string>, seen: set<string>)
    requires Valid(u) && forall key :: key in keys ==> key in u.keys
    ensures Values(u.g, Said(u.g, kept + Appended(u, keys, seen))) == Values(u.g, Said(u.g, kept)) + Fresh(u, keys, seen)
    decreases |keys|
  {
    if keys == [] {
      assert kept + [] == kept;
    } else {
      var n := |keys| - 1;
      var key, earlier := keys[n], Appended(u, keys[..n], seen);
      AppendedValues(u, kept, keys[..n], seen);
      FreshNext(u, keys, seen, Values(u.g, Said(u.g, kept)));
      if key in u.assign && key !in seen {
        WrittenLine(u, key);
        ValuesSnoc(u.g, kept + earlier, Written(u, key));
        assert kept + earlier + [Written(u, key)] == kept + (earlier + [Written(u, key)]);
      } else {
        assert earlier + [] == earlier;
      }
    }
  }

  lemma {:induction false} FreshNext(u: Update, keys: seq<string>, seen: set<string>, values: map<string, string>)
    requires keys != []
    ensures var n := |keys| - 1;
      values + Fresh(u, keys, seen)
      == if keys[n] in u.assign && keys[n] !in seen
         then (values + Fresh(u, keys[..n], seen))[keys[n] := u.g.unquote(u.assign[keys[n]])]
         else values + Fresh(u, keys[..n], seen)
  {
    assert keys == keys[..|keys| - 1] + [keys[|keys| - 1]];
  }

  /** Every line of the result is a line of the input that the update leaves alone, or a written assignment. */
  ghost predicate FromUpdate(u: Update, line: string, lines: seq<string>) {
    (line in Untouched(u, lines)) || (exists key :: key in u.assign && line == Written(u, key))
  }

  predicate IsTouched(u: Update, line: string) {
    var said := u.g.classify(line);
    said.Entry? && (said.key in u.remove || said.key in u.assign)
  }

  function Untouched(u: Update, lines: seq<string>): seq<string> {
    if lines == [] then []
    else
      var n := |lines| - 1;
      Untouched(u, lines[..n]) + if IsTouched(u, lines[n]) then [] else [lines[n]]
  }

  lemma {:induction false} UntouchedIn(u: Update, lines: seq<string>)
    ensures forall line :: line in Untouched(u, lines) <==> line in lines && !IsTouched(u, line)
    decreases |lines|
  {
    if lines != [] {
      var n := |lines| - 1;
      UntouchedIn(u, lines[..n]);
      assert lines == lines[..n] + [lines[n]];
    }
  }

  lemma {:induction false} UntouchedConcat(u: Update, a: seq<string>, b: seq<string>)
    ensures Untouched(u, a + b) == Untouched(u, a) + Untouched(u, b)
    decreases |b|
  {
    if b == [] {
      assert a + b == a;
    } else {
      var n := |b| - 1;
      UntouchedConcat(u, a, b[..n]);
      assert (a + b)[..|a + b| - 1] == a + b[..n];
    }
  }

  lemma {:induction false} KeptUntouched(u: Update, lines: seq<string>)
    requires Valid(u)
    ensures Untouched(u, Kept(u, lines)) == Untouched(u, lines)
    ensures forall line :: line in Kept(u, lines) ==> FromUpdate(u, line, lines)
    decreases |lines|
  {
    if lines != [] {
      var n := |lines| - 1;
      var line := NewLine(u, lines[n], u.g.classify(lines[n]));
      KeptUntouched(u, lines[..n]);
      if line.Some? {
        UntouchedConcat(u, Kept(u, lines[..n]), [line.value]);
        UntouchedOne(u, line.value);
        if IsTouched(u, lines[n]) {
          WrittenLine(u, u.g.classify(lines[n]).key);
        }
      } else {
        assert Kept(u, lines[..n]) + [] == Kept(u, lines[..n]);
      }
      assert Untouched(u, lines[..n]) + [] == Untouched(u, lines[..n]);
    }
  }

  lemma {:induction false} UntouchedOne(u: Update, line: string)
    ensures Untouched(u, [line]) == if IsTouched(u, line) then [] else [line]
  {
    assert [line][..0] == [];
  }

  lemma {:induction false} AppendedTouched(u: Update, keys: seq<string>, seen: set<string>, lines: seq<string>)
    requires Valid(u)
    ensures Untouched(u, Appended(u, keys, seen)) == []
    ensures forall line :: line in Appended(u, keys, seen) ==> FromUpdate(u, line, lines)
    decreases |keys|
  {
    if keys != [] {
      var n := |keys| - 1;
      AppendedTouched(u, keys[..n], seen, lines);
      if keys[n] in u.assign && keys[n] !in seen {
        UntouchedConcat(u, Appended(u, keys[..n], seen), [Written(u, keys[n])]);
        UntouchedOne(u, Written(u, keys[n]));
        WrittenLine(u, keys[n]);
      } else {
        assert Appended(u, keys[..n], seen) + [] == Appended(u, keys[..n], seen);
      }
    }
  }

  /** Lines that the update does not name keep their text and their order. */
  lemma {:induction false} KeepsUntouched(u: Update, lines: seq<string>)
    requires Valid(u)
    ensures Untouched(u, NewLines(u, lines)) == Untouched(u, lines)
    ensures forall line :: line in NewLines(u, lines) ==> FromUpdate(u, line, lines)
  {
    KeptUntouched(u, lines);
    AppendedTouched(u, u.keys, Seen(u, lines), lines);
    UntouchedConcat(u, Kept(u, lines), Appended(u, u.keys, Seen(u, lines)));
  }

  function DropCRs(lines: seq<string>): (out: seq<string>)
    ensures |out| == |lines|
  {
    seq(|lines|, i requires 0 <= i < |lines| => DropCR(lines[i]))
  }

  /** The result, as the next scanner sees it. */
  lemma {:induction false} LinesOfRewritten(u: Update, input: string)
    requires Valid(u)
    ensures RawLines(Rewritten(u, input)) == NewLines(u, Lines(input))
    ensures Lines(Rewritten(u, input)) == DropCRs(NewLines(u, Lines(input)))
    ensures Said(u.g, Lines(Rewritten(u, input))) == Said(u.g, NewLines(u, Lines(input)))
  {
    var lines, now := Lines(input), NewLines(u, Lines(input));
    LinesAreLines(input);
    KeepsUntouched(u, lines);
    UntouchedIn(u, lines);
    forall i | 0 <= i < |now| ensures OneLine(now[i]) {
      FromUpdateOneLine(u, now[i], lines);
    }
    RawLinesOfJoin(now);
    assert DropCRs(now) == Lines(Rewritten(u, input));
    assert Said(u.g, DropCRs(now)) == Said(u.g, now);
  }

  lemma {:induction false} FromUpdateOneLine(u: Update, line: string, lines: seq<string>)
    requires Valid(u) && FromUpdate(u, line, lines) && forall i :: 0 <= i < |lines| ==> OneLine(lines[i])
    ensures OneLine(line)
  {
    UntouchedIn(u, lines);
    if line !in Untouched(u, lines) {
      var key :| key in u.assign && line == Written(u, key);
      WrittenLine(u, key);
    }
  }

  function Assigned(u: Update): map<string, string> {
    map key | key in u.assign :: u.g.unquote(u.assign[key])
  }

  /** Parsing the rewritten file gives the original bindings without the removed keys and with the assigned ones. */
  lemma {:induction false} RewriteCommutes(u: Update, input: string)
    requires Valid(u)
    ensures Values(u.g, Said(u.g, Lines(Rewritten(u, input)))) == Values(u.g, Said(u.g, Lines(input))) - u.remove + Assigned(u)
  {
    var lines := Lines(input);
    var values := Values(u.g, Said(u.g, lines));
    LinesOfRewritten(u, input);
    KeptValues(u, lines);
    SeenMeans(u, lines);
    AppendedValues(u, Kept(u, lines), u.keys, Seen(u, lines));
    AppliedThenFresh(u, values);
  }

  lemma {:induction false} AppliedThenFresh(u: Update, values: map<string, string>)
    requires Valid(u)
    ensures Applied(u, values) + Fresh(u, u.keys, u.assign.Keys * values.Keys) == values - u.remove + Assigned(u)
  {
  }

  lemma {:induction false} RewriteKeepsGood(u: Update, input: string)
    requires Valid(u) && NoBadLine(Said(u.g, Lines(input)))
    ensures NoBadLine(Said(u.g, Lines(Rewritten(u, input))))
  {
    var lines, now := Lines(input), NewLines(u, Lines(input));
    LinesOfRewritten(u, input);
    KeepsUntouched(u, lines);
    UntouchedIn(u, lines);
    forall i | 0 <= i < |now| ensures !u.g.classify(now[i]).Bad? {
      assert FromUpdate(u, now[i], lines);
      if now[i] in Untouched(u, lines) {
        var k :| 0 <= k < |lines| && lines[k] == now[i];
        assert !Said(u.g, lines)[k].Bad?;
      } else {
        var key :| key in u.assign && now[i] == Written(u, key);
        WrittenLine(u, key);
      }
    }
  }

  // ---------- Rewriting twice ----------

  /** The update would leave this line as it is. */
  predicate Settled(u: Update, line: string) {
    NewLine(u, line, u.g.classify(line)) == Some(line)
  }

  lemma {:induction false} KeptSettled(u: Update, lines: seq<string>)
    requires forall line :: line in lines ==> Settled(u, line)
    ensures Kept(u, lines) == lines
    decreases |lines|
  {
    if lines != [] {
      var n := |lines| - 1;
      assert lines == lines[..n] + [lines[n]];
      assert lines[n] in lines && Settled(u, lines[n]);
      KeptSettled(u, lines[..n]);
    }
  }

  lemma {:induction false} NothingAppended(u: Update, keys: seq<string>)
    ensures Appended(u, keys, u.assign.Keys) == []
    decreases |keys|
  {
    if keys != [] {
      NothingAppended(u, keys[..|keys| - 1]);
    }
  }

  lemma {:induction false} SettledWithoutCR(u: Update, line: string, lines: seq<string>)
    requires Valid(u) && FromUpdate(u, line, lines)
    ensures Settled(u, DropCR(line))
  {
    UntouchedIn(u, lines);
    if line !in Untouched(u, lines) {
      var key :| key in u.assign && line == Written(u, key);
      WrittenLine(u, key);
    }
  }

  /** A second rewrite only drops the carriage returns that the first one left at the ends of lines. */
  lemma {:induction false} SecondRewrite(u: Update, input: string)
    requires Valid(u)
    ensures NewLines(u, Lines(Rewritten(u, input))) == DropCRs(NewLines(u, Lines(input)))
  {
    var now := NewLines(u, Lines(input));
    var again := Lines(Rewritten(u, input));
    LinesOfRewritten(u, input);
    KeepsUntouched(u, Lines(input));
    forall line | line in again ensures Settled(u, line) {
      var i :| 0 <= i < |again| && again[i] == line;
      SettledWithoutCR(u, now[i], Lines(input));
    }
    KeptSettled(u, again);
    RewriteCommutes(u, input);
    SeenMeans(u, again);
    assert Seen(u, again) == u.assign.Keys;
    NothingAppended(u, u.keys);
  }

  /** No line that the update leaves alone still ends in a carriage return once the scanner has dropped one. */
  predicate NoStrayCR(u: Update, lines: seq<string>) {
    forall i :: 0 <= i < |Untouched(u, lines)| ==> DropCR(Untouched(u, lines)[i]) == Untouched(u, lines)[i]
  }

  lemma {:induction false} DroppedIsSame(u: Update, lines: seq<string>)
    requires Valid(u)
    ensures DropCRs(NewLines(u, lines)) == NewLines(u, lines) <==> NoStrayCR(u, lines)
  {
    var now := NewLines(u, lines);
    KeepsUntouched(u, lines);
    if NoStrayCR(u, lines) {
      forall i | 0 <= i < |now| ensures DropCR(now[i]) == now[i] {
        assert FromUpdate(u, now[i], lines);
        if now[i] !in Untouched(u, lines) {
          var key :| key in u.assign && now[i] == Written(u, key);
          WrittenLine(u, key);
        }
      }
    }
    if DropCRs(now) == now {
      UntouchedIn(u, now);
      forall i | 0 <= i < |Untouched(u, lines)| ensures DropCR(Untouched(u, lines)[i]) == Untouched(u, lines)[i] {
        assert Untouched(u, now)[i] in now;
        var k :| 0 <= k < |now| && now[k] == Untouched(u, now)[i];
        assert DropCRs(now)[k] == now[k];
      }
    }
  }

  /** Rewriting twice equals rewriting once exactly when no untouched line is left with a carriage return. */
  lemma {:induction false} RewriteTwice(u: Update, input: string)
    requires Valid(u)
    ensures Rewritten(u, Rewritten(u, input)) == Rewritten(u, input) <==> NoStrayCR(u, Lines(input))
  {
    var once := Rewritten(u, input);
    var now := NewLines(u, Lines(input));
    SecondRewrite(u, input);
    DroppedIsSame(u, Lines(input));
    LinesOfRewritten(u, input);
    LinesOfRewritten(u, once);
    assert RawLines(once) == now;
    assert RawLines(Rewritten(u, once)) == DropCRs(now);
  }

  lemma {:induction false} RawLinesChars(s: string, c: char)
    requires c !in s
    ensures forall i :: 0 <= i < |RawLines(s)| ==> c !in RawLines(s)[i]
    decreases |s|
  {
    if s != "" && Index(s, '\n') < |s| {
      RawLinesChars(s[Index(s, '\n') + 1..], c);
    }
  }

  /** A file without carriage returns is settled by one rewrite. */
  lemma {:induction false} RewriteTwicePlain(u: Update, input: string)
    requires Valid(u) && '\r' !in input
    ensures Rewritten(u, Rewritten(u, input)) == Rewritten(u, input)
  {
    var lines := Lines(input);
    RawLinesChars(input, '\r');
    UntouchedIn(u, lines);
    forall i | 0 <= i < |Untouched(u, lines)| ensures DropCR(Untouched(u, lines)[i]) == Untouched(u, lines)[i] {
      assert Untouched(u, lines)[i] in lines;
    }
    RewriteTwice(u, input);
  }

  lemma {:induction false} DropOne(line: string, raw: string)
    requires raw == line + ['\r']
    ensures DropCR(raw) == line
  {
    assert raw[..|raw| - 1] == line;
  }

  lemma {:induction false} CommentLine(line: string, input: string)
    requires line == ['#', '\r'] && input == line + ['\r'] + ['\n']
    ensures Lines(input) == [line]
  {
    var raw := line + ['\r'];
    IndexAt(raw, '\n', []);
    assert input == raw + ['\n'] + [] && input[..3] == raw && input[4..] == [];
    assert RawLines(input) == [raw];
    DropOne(line, raw);
    assert Lines(input) == [DropCR(raw)];
  }

  lemma {:induction false} CommentSays(line: string)
    requires line == ['#', '\r']
    ensures Classify(line) == Blank
  {
    var mark := line[..1];
    assert TrimRight(mark) == mark && TrimRight(line) == TrimRight(mark) && TrimLeft(mark) == mark;
  }

  lemma {:induction false} StrayComment(u: Update, line: string, input: string)
    requires Valid(u) && line == ['#', '\r'] && Lines(input) == [line] && u.g.classify(line).Blank?
    ensures Rewritten(u, Rewritten(u, input)) != Rewritten(u, input)
  {
    UntouchedOne(u, line);
    assert Untouched(u, Lines(input))[0] == line && DropCR(line) != line;
    RewriteTwice(u, input);
  }

  /** A comment that ends in two carriage returns loses one in each rewrite. */
  lemma {:induction false} RewriteTwiceDiffers(u: Update, input: string)
    requires Valid(u) && u.g == DOTENV && input == "#\r\r\n"
    ensures Rewritten(u, Rewritten(u, input)) != Rewritten(u, input)
  {
    var line := input[..2];
    CommentLine(line, input);
    CommentSays(line);
    StrayComment(u, line, input);
  }

  // ---------- The rewrite keeps keys distinct ----------

  lemma {:induction false} BoundKeys(g: Grammar, said: seq<Line>)
    ensures forall i :: 0 <= i < |said| && said[i].Entry? ==> said[i].key in Values(g, said)
    ensures forall key :: key in Values(g, said) ==> exists i :: 0 <= i < |said| && said[i].Entry? && said[i].key == key
    decreases |said|
  {
    if said != [] {
      var n := |said| - 1;
      BoundKeys(g, said[..n]);
      forall key | key in Values(g, said) ensures exists i :: 0 <= i < |said| && said[i].Entry? && said[i].key == key {
        if key in Values(g, said[..n]) {
          var i :| 0 <= i < n && said[..n][i].Entry? && said[..n][i].key == key;
          assert said[i] == said[..n][i];
        } else {
          assert said[n].Entry? && said[n].key == key;
        }
      }
      forall i | 0 <= i < |said| && said[i].Entry? ensures said[i].key in Values(g, said) {
        assert i < n ==> said[..n][i] == said[i];
      }
    }
  }

  lemma {:induction false} DistinctSnoc(g: Grammar, lines: seq<string>, line: string)
    ensures DistinctKeys(Said(g, lines + [line])) <==>
      DistinctKeys(Said(g, lines)) && (g.classify(line).Entry? ==> g.classify(line).key !in Values(g, Said(g, lines)))
  {
    var said, now := Said(g, lines), Said(g, lines + [line]);
    ValuesSnoc(g, lines, line);
    BoundKeys(g, said);
    assert now[|lines|] == g.classify(line);
    assert forall i :: 0 <= i < |lines| ==> now[i] == said[i];
  }

  lemma {:induction false} KeptDistinct(u: Update, lines: seq<string>)
    requires Valid(u) && DistinctKeys(Said(u.g, lines))
    ensures DistinctKeys(Said(u.g, Kept(u, lines)))
    decreases |lines|
  {
    if lines != [] {
      var n := |lines| - 1;
      var before, line := lines[..n], lines[n];
      assert before + [line] == lines;
      DistinctSnoc(u.g, before, line);
      KeptDistinct(u, before);
      KeptValues(u, before);
      var said := u.g.classify(line);
      var now := NewLine(u, line, said);
      if now.Some? {
        DistinctSnoc(u.g, Kept(u, before), now.value);
        if IsTouched(u, line) {
          WrittenLine(u, said.key);
        }
      } else {
        assert Kept(u, before) + [] == Kept(u, before);
      }
    }
  }

  predicate NoRepeats(keys: seq<string>) {
    forall i, j :: 0 <= i < j < |keys| ==> keys[i] != keys[j]
  }

  lemma {:induction false} AppendedDistinct(u: Update, kept: seq<string>, keys: seq<string>, seen: set<string>)
    requires Valid(u) && NoRepeats(keys) && forall key :: key in keys ==> key in u.keys
    requires DistinctKeys(Said(u.g, kept))
    requires forall key :: key in u.assign && key in Values(u.g, Said(u.g, kept)) ==> key in seen
    ensures DistinctKeys(Said(u.g, kept + Appended(u, keys, seen)))
    decreases |keys|
  {
    if keys == [] {
      assert kept + [] == kept;
    } else {
      var n := |keys| - 1;
      var key, earlier := keys[n], Appended(u, keys[..n], seen);
      AppendedDistinct(u, kept, keys[..n], seen);
      if key in u.assign && key !in seen {
        AppendedValues(u, kept, keys[..n], seen);
        WrittenLine(u, key);
        DistinctSnoc(u.g, kept + earlier, Written(u, key));
        assert kept + earlier + [Written(u, key)] == kept + (earlier + [Written(u, key)]);
      } else {
        assert earlier + [] == earlier;
      }
    }
  }

  /** The rewritten file again binds no key twice. */
  lemma {:induction false} RewriteKeepsDistinct(u: Update, input: string)
    requires Valid(u) && NoRepeats(u.keys) && DistinctKeys(Said(u.g, Lines(input)))
    ensures DistinctKeys(Said(u.g, Lines(Rewritten(u, input))))
  {
    var lines := Lines(input);
    KeptDistinct(u, lines);
    KeptValues(u, lines);
    SeenMeans(u, lines);
    AppendedDistinct(u, Kept(u, lines), u.keys, Seen(u, lines));
    LinesOfRewritten(u, input);
  }

  // ---------- The lines of the result stay short ----------

  lemma {:induction false} KeptWritten(u: Update, lines: seq<string>, key: string)
    requires Valid(u) && key in Seen(u, lines)
    ensures key in u.assign && Written(u, key) in Kept(u, lines)
    decreases |lines|
  {
    var n := |lines| - 1;
    if key in Seen(u, lines[..n]) {
      KeptWritten(u, lines[..n], key);
    }
  }

  lemma {:induction false} AppendedWritten(u: Update, keys: seq<string>, seen: set<string>, key: string)
    requires key in u.assign && key in keys && key !in seen
    ensures Written(u, key) in Appended(u, keys, seen)
    decreases |keys|
  {
    var n := |keys| - 1;
    assert keys == keys[..n] + [keys[n]];
    if key in keys[..n] {
      AppendedWritten(u, keys[..n], seen, key);
    }
  }

  lemma {:induction false} DropCRShortens(line: string)
    ensures ByteLen(DropCR(line)) <= ByteLen(line)
  {
    if |line| > 1 && line[|line| - 1] == '\r' {
      DropCRShortens(line[1..]);
      assert DropCR(line)[1..] == DropCR(line[1..]) && DropCR(line)[0] == line[0];
    }
  }

  /** Only a value that is too long itself makes a line that the scanner stops at. */
  lemma {:induction false} RewriteKeepsScannable(u: Update, input: string)
    requires Valid(u) && Scannable(input)
    ensures Scannable(Rewritten(u, input)) <==> forall key :: key in u.assign ==> ByteLen(Written(u, key)) < MAX_BYTES
  {
    var lines, now := Lines(input), NewLines(u, Lines(input));
    LinesOfRewritten(u, input);
    KeepsUntouched(u, lines);
    UntouchedIn(u, lines);
    if Scannable(Rewritten(u, input)) {
      forall key | key in u.assign ensures ByteLen(Written(u, key)) < MAX_BYTES {
        if key in Seen(u, lines) {
          KeptWritten(u, lines, key);
        } else {
          AppendedWritten(u, u.keys, Seen(u, lines), key);
        }
        assert Written(u, key) in now;
      }
    }
    if forall key :: key in u.assign ==> ByteLen(Written(u, key)) < MAX_BYTES {
      forall i | 0 <= i < |now| ensures ByteLen(now[i]) < MAX_BYTES {
        assert FromUpdate(u, now[i], lines);
        if now[i] in Untouched(u, lines) {
          var k :| 0 <= k < |lines| && lines[k] == now[i];
          DropCRShortens(RawLines(input)[k]);
        }
      }
    }
  }

  // ---------- The operations ----------

  const EDITABLE: seq<string> := [
    "NODE_PORT", "NODE_BIND_ADDR", "LOW_MEMORY", "BODY_LIMIT_MB", "GOMEMLIMIT", "DISABLE_HASHED_SET_CHECK", "SNI_VERIFICATION",
    "NFTABLES_LOGGING", "NFTABLES_ACCEPT_REPLY_TRAFFIC"]

  /** Some key is named, all are editable, none twice, and the values can stand in a line. */
  predicate ValidRequest(editable: seq<string>, assign: map<string, string>, unset: seq<string>) {
    && (assign.Keys != {} || unset != [])
    && (forall key :: key in assign ==> key in editable && PlainValue(assign[key]))
    && (forall i :: 0 <= i < |unset| ==> unset[i] in editable && unset[i] !in assign)
    && (forall i, j :: 0 <= i < j < |unset| ==> unset[i] != unset[j])
  }

  method ValidateAssignments(editable: seq<string>, assign: map<string, string>) returns (ok: bool)
    ensures ok <==> forall key :: key in assign ==> key in editable && PlainValue(assign[key])
  {
    var rest := assign.Keys;
    while rest != {}
      invariant rest <= assign.Keys
      invariant forall key :: key in assign.Keys - rest ==> key in editable && PlainValue(assign[key])
      decreases rest
    {
      var key :| key in rest;
      if key !in editable || !PlainValue(assign[key]) {
        return false;
      }
      rest := rest - {key};
    }
    ok := true;
  }

  method ValidateConfigurationUpdate(editable: seq<string>, assign: map<string, string>, unset: seq<string>) returns (ok: bool)
    ensures ok <==> ValidRequest(editable, assign, unset)
  {
    if assign.Keys == {} && unset == [] {
      return false;
    }
    var plain := ValidateAssignments(editable, assign);
    if !plain {
      return false;
    }
    var seen := assign.Keys;
    for i := 0 to |unset|
      invariant seen == assign.Keys + set k | 0 <= k < i :: unset[k]
      invariant forall k :: 0 <= k < i ==> unset[k] in editable && unset[k] !in assign
      invariant forall j, k :: 0 <= j < k < i ==> unset[j] != unset[k]
    {
      if unset[i] !in editable || unset[i] in seen {
        return false;
      }
      seen := seen + {unset[i]};
    }
    ok := true;
  }

  lemma {:induction false} ShortKeysArePlain()
    ensures PlainKey("NODE_PORT") && PlainKey("NODE_BIND_ADDR") && PlainKey("LOW_MEMORY") && PlainKey("BODY_LIMIT_MB") && PlainKey("GOMEMLIMIT")
  {
  }

  lemma {:induction false} LongKeysArePlain()
    ensures PlainKey("DISABLE_HASHED_SET_CHECK") && PlainKey("SNI_VERIFICATION") && PlainKey("NFTABLES_LOGGING")
    ensures PlainKey("NFTABLES_ACCEPT_REPLY_TRAFFIC")
  {
  }

  lemma {:induction false} EditableKeysArePlain()
    ensures forall key :: key in EDITABLE ==> PlainKey(key)
  {
    ShortKeysArePlain();
    LongKeysArePlain();
  }

  lemma {:induction false} EditableKeysDiffer()
    ensures NoRepeats(EDITABLE)
  {
    assert EDITABLE[6][0] == 'S' && EDITABLE[7][0] == 'N' && EDITABLE[2][0] == 'L' && EDITABLE[4][0] == 'G';
    forall i, j | 0 <= i < j < |EDITABLE| ensures EDITABLE[i] != EDITABLE[j] {
    }
  }

  function UpdateOf(assign: map<string, string>, unset: seq<string>): Update {
    Update(DOTENV, EDITABLE, assign, set key | key in unset)
  }

  lemma {:induction false} ValidRequestIsValid(assign: map<string, string>, unset: seq<string>)
    requires ValidRequest(EDITABLE, assign, unset)
    ensures Valid(UpdateOf(assign, unset))
  {
    DotenvIsLawful();
    EditableKeysArePlain();
  }

  /** Assignments only, no key twice, and no line too long. */
  predicate Acceptable(g: Grammar, data: string) {
    Scannable(data) && NoBadLine(Said(g, Lines(data))) && DistinctKeys(Said(g, Lines(data)))
  }

  /** The check before a rewrite. */
  method ParseEnvironmentAssignments(g: Grammar, data: string) returns (ok: bool)
    ensures ok <==> Acceptable(g, data)
  {
    var lines := Lines(data);
    ghost var said := Said(g, lines);
    var keys: set<string> := {};
    for i := 0 to |lines|
      invariant forall k :: 0 <= k < i ==> !said[k].Bad?
      invariant forall key :: key in keys <==> exists k :: 0 <= k < i && said[k].Entry? && said[k].key == key
      invariant forall j, k :: 0 <= j < k < i && said[j].Entry? && said[k].Entry? ==> said[j].key != said[k].key
    {
      var line := g.classify(lines[i]);
      assert line == said[i];
      if line.Blank? {
        continue;
      }
      if line.Bad? || line.key in keys {
        return false;
      }
      keys := keys + {line.key};
    }
    ok := Scannable(data);
  }

  /** Writes the new file line by line; None when the old one does not pass the check. */
  method RewriteEditableConfiguration(u: Update, input: string) returns (output: Option<string>)
    ensures output.Some? <==> Acceptable(u.g, input)
    ensures output.Some? ==> output.value == Rewritten(u, input)
  {
    var checked := ParseEnvironmentAssignments(u.g, input);
    if !checked {
      return None;
    }
    var lines := Lines(input);
    var buffer, seen := "", {};
    for i := 0 to |lines|
      invariant buffer == Join(Kept(u, lines[..i])) && seen == Seen(u, lines[..i])
    {
      var line := lines[i];
      var said := u.g.classify(line);
      PrefixLines(u, lines, i);
      if said.Entry? {
        if said.key in u.remove {
          continue;
        }
        if said.key in u.assign {
          line := said.key + "=" + u.assign[said.key];
          seen := seen + {said.key};
        }
      }
      JoinSnoc(Kept(u, lines[..i]), line);
      buffer := buffer + line + "\n";
    }
    assert lines[..|lines|] == lines && Kept(u, lines) + [] == Kept(u, lines);
    for i := 0 to |u.keys|
      invariant buffer == Join(Kept(u, lines) + Appended(u, u.keys[..i], seen))
    {
      var key := u.keys[i];
      AppendedPrefix(u, Kept(u, lines), u.keys, i, seen);
      if key !in u.assign || key in seen {
        continue;
      }
      JoinSnoc(Kept(u, lines) + Appended(u, u.keys[..i], seen), Written(u, key));
      buffer := buffer + (key + "=" + u.assign[key] + "\n");
    }
    assert u.keys[..|u.keys|] == u.keys;
    output := Some(buffer);
  }

  lemma {:induction false} PrefixLines(u: Update, lines: seq<string>, i: nat)
    requires i < |lines|
    ensures var now := NewLine(u, lines[i], u.g.classify(lines[i]));
      Kept(u, lines[..i + 1]) == if now.None? then Kept(u, lines[..i]) else Kept(u, lines[..i]) + [now.value]
    ensures var said := u.g.classify(lines[i]);
      Seen(u, lines[..i + 1])
      == if said.Entry? && said.key !in u.remove && said.key in u.assign then Seen(u, lines[..i]) + {said.key} else Seen(u, lines[..i])
  {
    assert lines[..i + 1][..i] == lines[..i];
  }

  lemma {:induction false} AppendedPrefix(u: Update, kept: seq<string>, keys: seq<string>, i: nat, seen: set<string>)
    requires i < |keys|
    ensures kept + Appended(u, keys[..i + 1], seen)
      == if keys[i] in u.assign && keys[i] !in seen then kept + Appended(u, keys[..i], seen) + [Written(u, keys[i])]
         else kept + Appended(u, keys[..i], seen)
  {
    assert keys[..i + 1][..i] == keys[..i];
  }

  lemma {:induction false} JoinSnoc(lines: seq<string>, line: string)
    ensures Join(lines + [line]) == Join(lines) + line + "\n"
    decreases |lines|
  {
    if lines == [] {
      assert lines + [line] == [line] && [line][1..] == [];
      assert Join([line]) == line + ['\n'] + "";
    } else {
      var first, rest := lines[0] + ['\n'], Join(lines[1..]);
      JoinSnoc(lines[1..], line);
      assert (lines + [line])[1..] == lines[1..] + [line] && (lines + [line])[0] == lines[0];
      assert Join(lines + [line]) == first + (rest + line + "\n");
      assert first + (rest + line + "\n") == first + rest + line + "\n";
    }
  }

  /**
  The promise to the administrator: exactly a valid request on an acceptable file gives a new file.  It
  is acceptable again unless a written line is too long, and its parse, if it is within the parser's
  limits, has the removed keys gone, the assigned keys bound to their unquoted values and every other
  binding as it was.
   */
  method ApplyRequest(input: string, assign: map<string, string>, unset: seq<string>)
    returns (output: Option<string>, values: Option<map<string, string>>)
    ensures output.Some? <==> ValidRequest(EDITABLE, assign, unset) && Acceptable(DOTENV, input)
    ensures output.Some? ==> output.value == Rewritten(UpdateOf(assign, unset), input)
    ensures output.Some? ==>
      (Acceptable(DOTENV, output.value) <==> forall key :: key in assign ==> ByteLen(Written(UpdateOf(assign, unset), key)) < MAX_BYTES)
    ensures output.Some? ==> (values.Some? <==> WithinLimits(DOTENV, output.value))
    ensures output.Some? && values.Some? ==>
      values.value == Values(DOTENV, Said(DOTENV, Lines(input))) - (set key | key in unset) + Assigned(UpdateOf(assign, unset))
    ensures output.None? ==> values.None?
  {
    output, values := None, None;
    var ok := ValidateConfigurationUpdate(EDITABLE, assign, unset);
    if !ok {
      return;
    }
    var u := UpdateOf(assign, unset);
    ValidRequestIsValid(assign, unset);
    output := RewriteEditableConfiguration(u, input);
    if output.Some? {
      RewriteCommutes(u, input);
      RewriteKeepsGood(u, input);
      EditableKeysDiffer();
      RewriteKeepsDistinct(u, input);
      RewriteKeepsScannable(u, input);
      values := ParseDotEnvData(u.g, output.value);
    }
  }
}

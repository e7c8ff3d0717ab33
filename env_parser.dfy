/** The KEY=VALUE parser behind the GitLab variables and GitHub secrets pages (utils/variable.ts). */
module EnvParser {
  import opened Wrappers
  import opened Strings
  import opened Seqs

  /** One parsed line: `{ key, value }`. */
  datatype EnvEntry = EnvEntry(key: string, value: string)

  /** The `\r` that `/\r?\n/` consumes together with the newline that follows it. */
  function DropCarriageReturn(line: string): (r: string)
    ensures Trim(r) == Trim(line)
  {
    if line != [] && line[|line| - 1] == '\r' then
      assert line == line[..|line| - 1] + ['\r'];
      TrimDropsTrailingWhitespace(line[..|line| - 1], '\r');
      line[..|line| - 1]
    else line
  }

  /** `input.split(/\r?\n/)`: every piece a newline closes loses one trailing `\r`; the last piece keeps it. */
  function SplitLines(input: string): (r: seq<string>)
    ensures |r| == |Split(input, '\n')| && |r| >= 1
    ensures forall i :: 0 <= i < |r| ==> Trim(r[i]) == Trim(Split(input, '\n')[i])
  {
    var parts := Split(input, '\n');
    seq(|parts|, i requires 0 <= i < |parts| =>
      if i < |parts| - 1 then DropCarriageReturn(parts[i]) else parts[i])
  }

  /** The trim/filter/split/trim pipeline applied to one line; None when the line yields no entry. */
  function ParseLine(raw: string): (r: Option<EnvEntry>)
    ensures Trim(raw) == [] || Trim(raw)[0] == '#' ==> r == None
    ensures r.Some? ==> r.value.key != [] && IsTrimmed(r.value.key) && '=' !in r.value.key
  {
    ParseTrimmed(Trim(raw))
  }

  /** The part of `ParseLine` after the line is trimmed: skip blanks and comments, split at `=`, trim the key. */
  function ParseTrimmed(line: string): (r: Option<EnvEntry>)
    ensures line == [] || line[0] == '#' ==> r == None
    ensures r.Some? ==> r.value.key != [] && IsTrimmed(r.value.key) && '=' !in r.value.key
  {
    if |line| == 0 || StartsWith(line, "#") then None
    else
      var parts := Split(line, '=');
      var key := Trim(parts[0]);
      var value := if |parts| > 1 then Join(parts[1..], '=') else "";
      if |key| == 0 then None
      else
        assert forall c :: c in key ==> c in parts[0];
        Some(EnvEntry(key, value))
  }

  /** The entries of a list of lines, in line order, at most one per line. */
  function ParseLines(lines: seq<string>): (r: seq<EnvEntry>)
    ensures |r| <= |lines|
    ensures forall i :: 0 <= i < |r| ==> r[i].key != [] && IsTrimmed(r[i].key) && '=' !in r[i].key
  {
    FilterMap(lines, ParseLine)
  }

  /** `parseEnvInput(input)`. */
  function ParseEnvInput(input: string): (r: seq<EnvEntry>)
    ensures |r| <= |Split(input, '\n')|
    ensures forall i :: 0 <= i < |r| ==> r[i].key != [] && IsTrimmed(r[i].key) && '=' !in r[i].key
  {
    ParseLines(SplitLines(input))
  }

  /** An empty text has no entries. */
  lemma ParseEmptyInput()
    ensures ParseEnvInput("") == []
  {
    assert SplitLines("") == [""];
    var parse: string -> Option<EnvEntry> := ParseLine;
    assert parse("") == None;
    assert [""][1..] == [];
    assert FilterMap([], parse) == [];
  }

  /** Everything after the first `=` is the value, later `=` kept verbatim; the key is trimmed. */
  lemma ParseLineAtFirstEquals(raw: string, k: string, v: string)
    requires Trim(raw) == k + ['='] + v
    requires '=' !in k && Trim(k) != [] && k[0] != '#'
    ensures ParseLine(raw) == Some(EnvEntry(Trim(k), v))
  {
    ParseTrimmedAtFirstEquals(Trim(raw), k, v);
  }

  lemma ParseTrimmedAtFirstEquals(line: string, k: string, v: string)
    requires line == k + ['='] + v
    requires '=' !in k && Trim(k) != [] && k[0] != '#'
    ensures ParseTrimmed(line) == Some(EnvEntry(Trim(k), v))
  {
    SplitAtFirst(k, '=', v);
    var parts := Split(line, '=');
    assert parts[0] == k && parts[1..] == Split(v, '=');
    JoinSplit(v, '=');
    assert !StartsWith(line, "#") by {
      assert line[0] == k[0];
    }
  }

  /** A line without `=` becomes a key with the empty value. */
  lemma ParseLineWithoutEquals(raw: string)
    requires Trim(raw) != [] && Trim(raw)[0] != '#' && '=' !in Trim(raw)
    ensures ParseLine(raw) == Some(EnvEntry(Trim(raw), ""))
  {
    TrimIdempotent(raw);
    ParseTrimmedWithoutEquals(Trim(raw));
  }

  lemma ParseTrimmedWithoutEquals(line: string)
    requires line != [] && line[0] != '#' && '=' !in line && Trim(line) == line
    ensures ParseTrimmed(line) == Some(EnvEntry(line, ""))
  {
    SplitWithoutSeparator(line, '=');
    assert !StartsWith(line, "#");
  }

  /** Lines that differ only by surrounding whitespace (such as a `\r`) parse alike. */
  lemma ParseLinesByTrim(xs: seq<string>, ys: seq<string>)
    requires |xs| == |ys|
    requires forall i :: 0 <= i < |xs| ==> Trim(xs[i]) == Trim(ys[i])
    ensures ParseLines(xs) == ParseLines(ys)
  {
    FilterMapPointwise(xs, ys, ParseLine);
  }

  /** Whether a `\r` is consumed with a newline does not change the entries. */
  lemma ParseEnvInputBySplit(input: string)
    ensures ParseEnvInput(input) == ParseLines(Split(input, '\n'))
  {
    ParseLinesByTrim(SplitLines(input), Split(input, '\n'));
  }

  /** A text without a newline is one line, and yields that line's entry if it has one. */
  lemma SingleLine(line: string)
    requires '\n' !in line
    ensures ParseEnvInput(line) == if ParseLine(line).Some? then [ParseLine(line).value] else []
  {
    ParseEnvInputBySplit(line);
    SplitWithoutSeparator(line, '\n');
    FilterMapSingleton(line, ParseLine);
  }

  /** A newline separates two blocks: their entries follow each other, none merged or dropped. */
  lemma NewlineSeparates(a: string, b: string)
    ensures ParseEnvInput(a + "\n" + b) == ParseEnvInput(a) + ParseEnvInput(b)
  {
    ParseEnvInputBySplit(a + "\n" + b);
    ParseEnvInputBySplit(a);
    ParseEnvInputBySplit(b);
    SplitAround(a, '\n', b);
    FilterMapAppend(Split(a, '\n'), Split(b, '\n'), ParseLine);
  }

  /** A trailing `\r` only pads the last line. */
  lemma TrailingCarriageReturnPadsLastLine(a: string)
    ensures |Split(a + "\r", '\n')| == |Split(a, '\n')|
    ensures forall i :: 0 <= i < |Split(a, '\n')| ==> Trim(Split(a + "\r", '\n')[i]) == Trim(Split(a, '\n')[i])
  {
    var p := Split(a, '\n');
    SplitAppendChar(a, '\r', '\n');
    var q := Split(a + "\r", '\n');
    forall i | 0 <= i < |q| ensures Trim(q[i]) == Trim(p[i]) {
      if i == |q| - 1 {
        TrimDropsTrailingWhitespace(p[i], '\r');
      }
    }
  }

  /** A trailing `\r` changes no entry. */
  lemma TrailingCarriageReturnIgnored(a: string)
    ensures ParseEnvInput(a + "\r") == ParseEnvInput(a)
  {
    ParseEnvInputBySplit(a + "\r");
    ParseEnvInputBySplit(a);
    TrailingCarriageReturnPadsLastLine(a);
    ParseLinesByTrim(Split(a + "\r", '\n'), Split(a, '\n'));
  }

  /** `\r\n` separates two blocks exactly as `\n` does. */
  lemma CarriageReturnNewlineSeparates(a: string, b: string)
    ensures ParseEnvInput(a + "\r\n" + b) == ParseEnvInput(a) + ParseEnvInput(b)
  {
    calc {
      ParseEnvInput(a + "\r\n" + b);
      { assert a + "\r\n" + b == (a + "\r") + "\n" + b; }
      ParseEnvInput((a + "\r") + "\n" + b);
      { NewlineSeparates(a + "\r", b); }
      ParseEnvInput(a + "\r") + ParseEnvInput(b);
      { TrailingCarriageReturnIgnored(a); }
      ParseEnvInput(a) + ParseEnvInput(b);
    }
  }
}

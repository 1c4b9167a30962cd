/** The hand-written `.env.local` reader of the connection test script: each
    line is trimmed; blank lines and `#` comment lines are skipped; the key is
    the text before the first `=`, the value everything after it; later
    definitions win. Reading the file is left out: its text is the input. */
module EnvFile {
  import opened Common
  import opened Words

  /** One line: `Some((key, value))` when it defines a variable. */
  function ParseLine(raw: string): Option<(string, string)> {
    ParseTrimmed(Trim(raw))
  }

  /** The same, on the trimmed line. */
  function ParseTrimmed(line: string): Option<(string, string)> {
    if line == "" || StartsWith(line, "#") then None
    else
      var parts := Split(line, '=');
      if parts[0] != "" && |parts| > 1 then Some((Trim(parts[0]), Trim(Join(parts[1..], '='))))
      else None
  }

  /** Splitting at the first separator: the part before it, then the pieces
      of the rest. */
  lemma {:induction false} SplitFirst(k: string, v: string, sep: char)
    requires sep !in k
    ensures Split(k + [sep] + v, sep) == [k] + Split(v, sep)
  {
    if k != [] {
      assert (k + [sep] + v)[1..] == k[1..] + [sep] + v;
      SplitFirst(k[1..], v, sep);
      assert k == [k[0]] + k[1..];
    } else {
      assert k + [sep] + v == [sep] + v;
    }
  }

  /** Text without the separator is a single piece. */
  lemma {:induction false} SplitNone(s: string, sep: char)
    requires sep !in s
    ensures Split(s, sep) == [s]
  {
    if s != [] {
      SplitNone(s[1..], sep);
      assert s == [s[0]] + s[1..];
    }
  }

  /** A line whose trimmed text is `k=v`, with no `=` in k, k not empty and
      not a comment, defines the trimmed k as the trimmed v: v may hold more
      `=` signs and `#` characters. */
  lemma ParseLineDefines(raw: string, k: string, v: string)
    requires Trim(raw) == k + "=" + v && '=' !in k && k != "" && k[0] != '#'
    ensures ParseLine(raw) == Some((Trim(k), Trim(v)))
  {
    var line := Trim(raw);
    assert line[0] == k[0];
    assert !StartsWith(line, "#");
    SplitFirst(k, v, '=');
    var parts := Split(line, '=');
    assert parts[0] == k && parts[1..] == Split(v, '=');
    SplitJoin(v, '=');
  }

  /** A line defines nothing exactly when it is blank, a comment, has no
      `=`, or starts with `=`. */
  lemma ParseLineNone(raw: string)
    ensures var line := Trim(raw);
            ParseLine(raw).None? <==> line == "" || line[0] == '#' || '=' !in line || line[0] == '='
  {
    var line := Trim(raw);
    if line != "" {
      assert StartsWith(line, "#") <==> line[0] == '#';
      if '=' !in line {
        SplitNone(line, '=');
      } else if line[0] != '#' && line[0] != '=' {
        var p := FirstIndex(line, '=');
        var k, v := line[..p], line[p + 1..];
        CutAt(line, p);
        ParseLineDefines(raw, k, v);
      } else if line[0] == '=' {
        assert line == "" + "=" + line[1..];
        SplitFirst("", line[1..], '=');
      }
    }
  }

  /** A defined key is never empty and holds no `=`. */
  lemma ParseLineKey(raw: string)
    requires ParseLine(raw).Some?
    ensures ParseLine(raw).value.0 != "" && '=' !in ParseLine(raw).value.0
  {
    var line := Trim(raw);
    ParseLineNone(raw);
    var p := FirstIndex(line, '=');
    var k, v := line[..p], line[p + 1..];
    CutAt(line, p);
    ParseLineDefines(raw, k, v);
    KeyNotBlank(k);
    TrimSub(k);
  }

  /** A text is its part before position p, the character there, and the
      rest. */
  lemma CutAt(s: string, p: nat)
    requires p < |s|
    ensures s == s[..p] + [s[p]] + s[p + 1..]
  {
  }

  lemma KeyNotBlank(k: string)
    requires k != "" && !IsSpace(k[0])
    ensures Trim(k) != ""
  {
    TrimEmptyIffAllSpace(k);
  }

  /** Trimming keeps a part of the text. */
  lemma TrimSub(s: string)
    ensures forall c :: c in Trim(s) ==> c in s
  {
    var a := TrimStart(s);
    assert forall c :: c in TrimEnd(a) ==> c in a;
    assert forall c :: c in a ==> c in s;
  }

  /** `KEY=` sets KEY to the empty text. */
  lemma EmptyValue(k: string)
    requires k != "" && '=' !in k && k[0] != '#' && !IsSpace(k[0]) && !IsSpace(k[|k| - 1])
    ensures ParseLine(k + "=") == Some((k, ""))
  {
    TrimOfTrimmed(k + "=");
    assert k + "=" == k + "=" + "";
    ParseLineDefines(k + "=", k, "");
    TrimOfTrimmed(k);
    TrimEmptyIffAllSpace("");
  }

  /** Applying the definitions of the lines in order. */
  function Apply(env: map<string, string>, defs: seq<Option<(string, string)>>): map<string, string>
    decreases |defs|
  {
    if defs == [] then env
    else Apply(if defs[0].Some? then env[defs[0].value.0 := defs[0].value.1] else env, defs[1..])
  }

  function ParseLines(lines: seq<string>): (r: seq<Option<(string, string)>>)
    ensures |r| == |lines| && forall i :: 0 <= i < |lines| ==> r[i] == ParseLine(lines[i])
  {
    seq(|lines|, i requires 0 <= i < |lines| => ParseLine(lines[i]))
  }

  /** The whole file: split at newlines, applied line by line. */
  function LoadEnv(env: map<string, string>, content: string): map<string, string> {
    Apply(env, ParseLines(Split(content, '\n')))
  }

  predicate Defines(d: Option<(string, string)>, key: string) {
    d.Some? && d.value.0 == key
  }

  /** A key no line defines keeps its earlier value, or its absence. */
  lemma {:induction false} ApplyUntouched(env: map<string, string>, defs: seq<Option<(string, string)>>, key: string)
    requires forall i :: 0 <= i < |defs| ==> !Defines(defs[i], key)
    ensures key in Apply(env, defs) <==> key in env
    ensures key in env ==> Apply(env, defs)[key] == env[key]
    decreases |defs|
  {
    if defs != [] {
      var env' := if defs[0].Some? then env[defs[0].value.0 := defs[0].value.1] else env;
      assert !Defines(defs[0], key);
      var rest := defs[1..];
      forall j | 0 <= j < |rest|
        ensures !Defines(rest[j], key)
      {
        assert rest[j] == defs[j + 1];
      }
      ApplyUntouched(env', rest, key);
    }
  }

  /** A key ends with the value of the last line that defines it. */
  lemma {:induction false} ApplyLastWins(env: map<string, string>, defs: seq<Option<(string, string)>>, key: string, i: nat)
    requires i < |defs| && Defines(defs[i], key)
    requires forall j :: i < j < |defs| ==> !Defines(defs[j], key)
    ensures key in Apply(env, defs) && Apply(env, defs)[key] == defs[i].value.1
    decreases |defs|
  {
    var env' := if defs[0].Some? then env[defs[0].value.0 := defs[0].value.1] else env;
    var rest := defs[1..];
    if i == 0 {
      forall j | 0 <= j < |rest|
        ensures !Defines(rest[j], key)
      {
        assert rest[j] == defs[j + 1];
      }
      ApplyUntouched(env', rest, key);
    } else {
      forall j | i - 1 < j < |rest|
        ensures !Defines(rest[j], key)
      {
        assert rest[j] == defs[j + 1];
      }
      assert rest[i - 1] == defs[i];
      ApplyLastWins(env', rest, key, i - 1);
    }
  }
}

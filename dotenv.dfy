/** `load_dotenv` (deploy/deploy.py): reads `KEY=VALUE` lines from a `.env`
    file into the process environment without overwriting anything that is
    already set. */
module DotEnv {
  import opened Options
  import opened Text

  type Env = map<string, string>

  /** What one line contributes: a key and a value, or nothing. */
  type Entry = Option<(string, string)>

  /** What one line of the file contributes: nothing for a blank line, a
      comment, a line without `=`, or an empty key or value. The line is
      split at its FIRST `=`, so the value may itself contain `=`. */
  function ParseLine(line: string): (r: Entry)
    ensures Strip(line) == [] || Strip(line)[0] == '#' || '=' !in Strip(line) ==> r.None?
    ensures var t := Strip(line);
      t != [] && t[0] != '#' && '=' in t ==>
        var key := Strip(t[..FirstIndex(t, '=')]);
        var value := CleanValue(t[FirstIndex(t, '=') + 1..]);
        r == if key == [] || value == [] then None else Some((key, value))
    ensures r.Some? ==> r.value.0 != [] && r.value.1 != [] && '=' !in r.value.0
  {
    ParseStripped(Strip(line))
  }

  /** A line already stripped of surrounding whitespace. */
  function ParseStripped(t: string): (r: Entry)
    ensures t == [] || t[0] == '#' || '=' !in t ==> r.None?
    ensures r.Some? ==> r.value.0 != [] && r.value.1 != [] && '=' !in r.value.0
  {
    if t == [] || t[0] == '#' || '=' !in t then None
    else SplitAssignment(t, FirstIndex(t, '='))
  }

  /** Key and value either side of the `=` at index `i`. */
  function SplitAssignment(t: string, i: nat): (r: Entry)
    requires i < |t| && '=' !in t[..i]
    ensures r.Some? ==> r.value.0 != [] && r.value.1 != [] && '=' !in r.value.0
  {
    var key := Strip(t[..i]);
    var value := CleanValue(t[i + 1..]);
    if key == [] || value == [] then None
    else
      assert '=' !in key by { StripWithin(t[..i], Whitespace, '='); }
      Some((key, value))
  }

  /** `value.strip().strip('"').strip("'")` */
  function CleanValue(v: string): string {
    StripChar(StripChar(Strip(v), '"'), '\'')
  }

  /** A line `KEY=<raw>` with a clean key yields that key and the raw
      value cleaned of whitespace and quotes, or nothing when the cleaned
      value is empty. */
  lemma ParseKeyValue(key: string, raw: string)
    requires key != [] && '=' !in key && key[0] != '#'
    requires !IsSpace(key[0]) && !IsSpace(key[|key| - 1])
    requires raw != [] && !IsSpace(raw[|raw| - 1])
    ensures ParseLine(key + "=" + raw) == if CleanValue(raw) == [] then None else Some((key, CleanValue(raw)))
  {
    var line := key + "=" + raw;
    assert ParseLine(line) == ParseStripped(line) by {
      assert line[0] == key[0] && line[|line| - 1] == raw[|raw| - 1];
      StripKeeps(line);
    }
    assert line[..|key|] == key;
    assert FirstIndex(line, '=') == |key| by { FirstIndexAt(line, '=', |key|); }
    assert ParseStripped(line) == SplitAssignment(line, |key|) by {
      assert line[0] == key[0] && line[|key|] == '=';
    }
    assert line[|key| + 1..] == raw;
    assert Strip(key) == key by { StripKeeps(key); }
  }

  /** A clean `KEY=VALUE` line parses back to its key and value, even when
      the value holds further `=` characters. */
  lemma ParseAssignment(key: string, value: string)
    requires key != [] && value != []
    requires '=' !in key && key[0] != '#'
    requires !IsSpace(key[0]) && !IsSpace(key[|key| - 1])
    requires !IsSpace(value[0]) && !IsSpace(value[|value| - 1])
    requires value[0] != '"' && value[|value| - 1] != '"'
    requires value[0] != '\'' && value[|value| - 1] != '\''
    ensures ParseLine(key + "=" + value) == Some((key, value))
  {
    ParseKeyValue(key, value);
    assert CleanValue(value) == value by {
      StripKeeps(value);
      StripCharKeeps(value, '"');
      StripCharKeeps(value, '\'');
    }
  }

  /** Stripping a character from both ends of `c v c` gives `v` when `v`
      neither starts nor ends with `c`. */
  lemma StripCharEnclosed(v: string, c: char)
    requires v != [] && v[0] != c && v[|v| - 1] != c
    ensures StripChar([c] + v + [c], c) == v
  {
    var s := [c] + v + [c];
    assert s[1..] == v + [c];
    assert TrimStart(s, Only(c)) == v + [c] by {
      assert (v + [c])[0] == v[0];
    }
    assert (v + [c])[..|v|] == v;
    assert TrimEnd(v + [c], Only(c)) == TrimEnd(v, Only(c));
    TrimKeeps(v, Only(c));
  }

  /** A double-quoted value loses its quotes: `KEY="VALUE"` sets `VALUE`. */
  lemma ParseQuoted(key: string, value: string)
    requires key != [] && value != []
    requires '=' !in key && key[0] != '#'
    requires !IsSpace(key[0]) && !IsSpace(key[|key| - 1])
    requires !IsSpace(value[0]) && !IsSpace(value[|value| - 1])
    requires value[0] != '"' && value[|value| - 1] != '"'
    requires value[0] != '\'' && value[|value| - 1] != '\''
    ensures ParseLine(key + "=\"" + value + "\"") == Some((key, value))
  {
    var quoted := "\"" + value + "\"";
    assert key + "=\"" + value + "\"" == key + "=" + quoted;
    ParseKeyValue(key, quoted);
    assert CleanValue(quoted) == value by {
      assert quoted[0] == '"' && quoted[|quoted| - 1] == '"';
      StripKeeps(quoted);
      StripCharEnclosed(value, '"');
      StripCharKeeps(value, '\'');
    }
  }

  /** A value that is empty once its quotes are gone sets nothing:
      `KEY=""` is ignored. */
  lemma ParseEmptyQuoted(key: string)
    requires key != [] && '=' !in key && key[0] != '#'
    requires !IsSpace(key[0]) && !IsSpace(key[|key| - 1])
    ensures ParseLine(key + "=\"\"") == None
  {
    assert key + "=\"\"" == key + "=" + "\"\"";
    ParseKeyValue(key, "\"\"");
    EmptyQuotesClean();
  }

  lemma EmptyQuotesClean()
    ensures CleanValue("\"\"") == []
  {
    assert Strip("\"\"") == "\"\"" by { StripKeeps("\"\""); }
    assert "\"\""[1..] == "\"";
    assert "\""[1..] == [];
  }

  /** The parsed form of every line, in file order. */
  function Entries(lines: seq<string>): (r: seq<Entry>)
    ensures |r| == |lines|
    decreases |lines|
  {
    if lines == [] then []
    else Entries(lines[..|lines| - 1]) + [ParseLine(lines[|lines| - 1])]
  }

  lemma {:induction false} EntriesAt(lines: seq<string>, i: nat)
    requires i < |lines|
    ensures Entries(lines)[i] == ParseLine(lines[i])
    decreases |lines|
  {
    if i < |lines| - 1 {
      EntriesAt(lines[..|lines| - 1], i);
    }
  }

  lemma {:induction false} EntriesAppend(a: seq<string>, b: seq<string>)
    ensures Entries(a + b) == Entries(a) + Entries(b)
    decreases |b|
  {
    if b == [] {
      assert a + b == a;
    } else {
      var b' := b[..|b| - 1];
      EntriesAppend(a, b');
      assert (a + b)[..|a + b| - 1] == a + b';
    }
  }

  /** `os.environ.setdefault(key, value)` for one parsed line. */
  function SetDefault(env: Env, entry: Entry): Env {
    if entry.Some? && entry.value.0 !in env then env[entry.value.0 := entry.value.1] else env
  }

  /** The environment after applying the parsed lines in order. */
  function ApplyEntries(env: Env, entries: seq<Entry>): Env
    decreases |entries|
  {
    if entries == [] then env
    else SetDefault(ApplyEntries(env, entries[..|entries| - 1]), entries[|entries| - 1])
  }

  /** The environment after reading `lines` in order. */
  function ApplyLines(env: Env, lines: seq<string>): Env {
    ApplyEntries(env, Entries(lines))
  }

  /** The environment after `load_dotenv`; a missing file changes nothing. */
  function ApplyFile(env: Env, file: Option<seq<string>>): (r: Env)
    ensures file.None? ==> r == env
    ensures forall k :: k in env ==> k in r && r[k] == env[k]
  {
    if file.None? then env
    else
      assert forall k :: k in env ==> k in ApplyLines(env, file.value) && ApplyLines(env, file.value)[k] == env[k] by {
        forall k | k in env
          ensures k in ApplyLines(env, file.value) && ApplyLines(env, file.value)[k] == env[k]
        {
          EntriesKeepExisting(env, Entries(file.value), k);
        }
      }
      ApplyLines(env, file.value)
  }

  predicate Assigns(entry: Entry, k: string) {
    entry.Some? && entry.value.0 == k
  }

  lemma {:induction false} EntriesKeepExisting(env: Env, entries: seq<Entry>, k: string)
    requires k in env
    ensures k in ApplyEntries(env, entries) && ApplyEntries(env, entries)[k] == env[k]
    decreases |entries|
  {
    if entries != [] {
      EntriesKeepExisting(env, entries[..|entries| - 1], k);
    }
  }

  lemma {:induction false} EntriesNotAssigned(env: Env, entries: seq<Entry>, k: string)
    requires k !in env
    requires forall j :: 0 <= j < |entries| ==> !Assigns(entries[j], k)
    ensures k !in ApplyEntries(env, entries)
    decreases |entries|
  {
    if entries != [] {
      EntriesNotAssigned(env, entries[..|entries| - 1], k);
    }
  }

  lemma {:induction false} EntriesFirstWins(env: Env, entries: seq<Entry>, i: nat, k: string, v: string)
    requires i < |entries| && entries[i] == Some((k, v)) && k !in env
    requires forall j :: 0 <= j < i ==> !Assigns(entries[j], k)
    ensures k in ApplyEntries(env, entries) && ApplyEntries(env, entries)[k] == v
    decreases |entries|
  {
    var prefix := entries[..|entries| - 1];
    if i == |entries| - 1 {
      EntriesNotAssigned(env, prefix, k);
    } else {
      EntriesFirstWins(env, prefix, i, k, v);
    }
  }

  lemma {:induction false} EntriesAddedFrom(env: Env, entries: seq<Entry>, k: string)
    requires k in ApplyEntries(env, entries) && k !in env
    ensures exists i :: 0 <= i < |entries| && entries[i] == Some((k, ApplyEntries(env, entries)[k]))
    decreases |entries|
  {
    var prefix := entries[..|entries| - 1];
    var before := ApplyEntries(env, prefix);
    if k in before {
      EntriesAddedFrom(env, prefix, k);
      var i :| 0 <= i < |prefix| && prefix[i] == Some((k, before[k]));
      assert entries[i] == prefix[i];
    } else {
      assert entries[|entries| - 1] == Some((k, ApplyEntries(env, entries)[k]));
    }
  }

  lemma {:induction false} EntriesDropNone(env: Env, front: seq<Entry>, back: seq<Entry>)
    ensures ApplyEntries(env, front + [None] + back) == ApplyEntries(env, front + back)
    decreases |back|
  {
    if back == [] {
      assert (front + [None])[..|front|] == front;
      assert front + [] == front;
      assert front + [None] + [] == front + [None];
    } else {
      var b := back[..|back| - 1];
      EntriesDropNone(env, front, b);
      assert (front + [None] + back)[..|front + [None] + back| - 1] == front + [None] + b;
      assert (front + back)[..|front + back| - 1] == front + b;
    }
  }

  lemma {:induction false} EntriesCover(env: Env, entries: seq<Entry>, j: nat)
    requires j < |entries| && entries[j].Some?
    ensures entries[j].value.0 in ApplyEntries(env, entries)
    decreases |entries|
  {
    var prefix := entries[..|entries| - 1];
    if j < |entries| - 1 {
      assert prefix[j] == entries[j];
      EntriesCover(env, prefix, j);
      EntriesKeepExisting(ApplyEntries(env, prefix), [entries[|entries| - 1]], entries[j].value.0);
      assert [entries[|entries| - 1]][..0] == [];
    }
  }

  lemma {:induction false} EntriesSettled(env: Env, entries: seq<Entry>)
    requires forall j :: 0 <= j < |entries| && entries[j].Some? ==> entries[j].value.0 in env
    ensures ApplyEntries(env, entries) == env
    decreases |entries|
  {
    if entries != [] {
      var prefix := entries[..|entries| - 1];
      assert forall j :: 0 <= j < |prefix| ==> prefix[j] == entries[j];
      EntriesSettled(env, prefix);
    }
  }

  /** A variable already in the environment is never overwritten. */
  lemma KeepsExisting(env: Env, lines: seq<string>, k: string)
    requires k in env
    ensures k in ApplyLines(env, lines) && ApplyLines(env, lines)[k] == env[k]
  {
    EntriesKeepExisting(env, Entries(lines), k);
  }

  /** For a key not yet set, the first line that assigns it wins. */
  lemma FirstAssignmentWins(env: Env, lines: seq<string>, i: nat, k: string, v: string)
    requires i < |lines| && ParseLine(lines[i]) == Some((k, v)) && k !in env
    requires forall j :: 0 <= j < i ==> !Assigns(ParseLine(lines[j]), k)
    ensures k in ApplyLines(env, lines) && ApplyLines(env, lines)[k] == v
  {
    var entries := Entries(lines);
    forall j | 0 <= j <= i
      ensures entries[j] == ParseLine(lines[j])
    {
      EntriesAt(lines, j);
    }
    EntriesFirstWins(env, entries, i, k, v);
  }

  /** Every added variable comes from some line of the file. */
  lemma AddedComesFromLine(env: Env, lines: seq<string>, k: string)
    requires k in ApplyLines(env, lines) && k !in env
    ensures exists i :: 0 <= i < |lines| && ParseLine(lines[i]) == Some((k, ApplyLines(env, lines)[k]))
  {
    var entries := Entries(lines);
    EntriesAddedFrom(env, entries, k);
    var i :| 0 <= i < |entries| && entries[i] == Some((k, ApplyEntries(env, entries)[k]));
    EntriesAt(lines, i);
  }

  /** A line that contributes nothing can be dropped from anywhere in the
      file without changing the result. */
  lemma IgnoredLineIrrelevant(env: Env, front: seq<string>, line: string, back: seq<string>)
    requires ParseLine(line).None?
    ensures ApplyLines(env, front + [line] + back) == ApplyLines(env, front + back)
  {
    assert Entries([line]) == [None] by {
      assert [line][..0] == [];
    }
    EntriesAppend(front, [line]);
    EntriesAppend(front + [line], back);
    EntriesAppend(front, back);
    EntriesDropNone(env, Entries(front), Entries(back));
  }

  /** Loading the same file twice is the same as loading it once: every
      key the file sets is already present the second time. */
  lemma LoadTwice(env: Env, file: Option<seq<string>>)
    ensures ApplyFile(ApplyFile(env, file), file) == ApplyFile(env, file)
  {
    if file.Some? {
      var entries := Entries(file.value);
      forall j | 0 <= j < |entries| && entries[j].Some?
        ensures entries[j].value.0 in ApplyEntries(env, entries)
      {
        EntriesCover(env, entries, j);
      }
      EntriesSettled(ApplyEntries(env, entries), entries);
    }
  }

  /** The process environment, `os.environ`, which `load_dotenv` updates in
      place. */
  class ProcessEnv {
    var vars: Env

    constructor (initial: Env)
      ensures vars == initial
    {
      vars := initial;
    }

    /** `load_dotenv(path)`; `file` is the file's lines, `None` if it does
        not exist. */
    method LoadDotenv(file: Option<seq<string>>)
      modifies this
      ensures vars == ApplyFile(old(vars), file)
      ensures forall k :: k in old(vars) ==> k in vars && vars[k] == old(vars)[k]
    {
      if file.None? {
        return;
      }
      var lines := file.value;
      ghost var entries := Entries(lines);
      var i := 0;
      while i < |lines|
        invariant 0 <= i <= |lines|
        invariant vars == ApplyEntries(old(vars), entries[..i])
      {
        var entry := ParseLine(lines[i]);
        if entry.Some? {
          var (key, value) := entry.value;
          if key !in vars {
            vars := vars[key := value];
          }
        }
        assert entries[..i + 1][..i] == entries[..i];
        assert entries[i] == entry by { EntriesAt(lines, i); }
        i := i + 1;
      }
      assert entries[..i] == entries;
      forall k | k in old(vars)
        ensures k in vars && vars[k] == old(vars)[k]
      {
        KeepsExisting(old(vars), lines, k);
      }
    }
  }
}

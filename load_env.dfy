/** The `.env` loader script: the lines of the file become key/value pairs, which then take
    precedence over the process environment in the parameters it writes out. Reading the files and
    writing `env.json` are left to the caller: the file's text comes in, the parameters go out. */
module LoadEnv {
  import opened Wrappers
  import opened Strings

  /** `const [key, ...valueParts] = t.split('=')` and `valueParts.join('=')`: the text before the
      first `=` and the text after it, further `=` included. */
  function KeyAndRest(t: string): (kv: (string, string))
    ensures '=' !in t ==> kv == (t, "")
    ensures '=' in t ==> kv == (t[..IndexOf(t, '=')], t[IndexOf(t, '=') + 1..])
  {
    var parts := Split(t, '=');
    SplitFirst(t, '=');
    assert '=' !in t ==> parts[1..] == [];
    (parts[0], Join(parts[1..], "="))
  }

  /** What one line of the file contributes: trimmed, a blank line or a `#` comment contributes
      nothing; otherwise the text before the first `=` is the key and the rest, further `=`
      included, is the value, both trimmed, and the pair counts only when both are non-empty. */
  function ParseLine(line: string): (entry: Option<(string, string)>)
    ensures entry.Some? ==> entry.value.0 != "" && Trim(entry.value.0) == entry.value.0
    ensures entry.Some? ==> entry.value.1 != "" && Trim(entry.value.1) == entry.value.1
    ensures var t := Trim(line);
      t != [] && t[0] != '#' && '=' in t && IndexOf(t, '=') > 0 && Trim(t[IndexOf(t, '=') + 1..]) != "" ==>
        entry == Some((Trim(t[..IndexOf(t, '=')]), Trim(t[IndexOf(t, '=') + 1..])))
  {
    var t := Trim(line);
    if t == [] || t[0] == '#' then None
    else
      var key := KeyAndRest(t).0;
      var value := Trim(KeyAndRest(t).1);
      if key != "" && value != "" then
        KeyStaysNonEmpty(line);
        TrimIdempotent(key);
        TrimIdempotent(KeyAndRest(t).1);
        Some((Trim(key), value))
      else None
  }

  /** The key part of a non-blank line starts where the line's text does, so trimming it never
      empties it. */
  lemma KeyStaysNonEmpty(line: string)
    requires Trim(line) != [] && KeyAndRest(Trim(line)).0 != ""
    ensures Trim(KeyAndRest(Trim(line)).0) != ""
  {
    var t := Trim(line);
    TrimIsInfix(line);
    var key := KeyAndRest(t).0;
    assert key[0] == t[0];
    TrimKeepsFirst(key);
  }

  /** A line contributes a pair exactly when, trimmed, it is non-empty, is not a `#` comment, and
      holds an `=` with some text before it and non-blank text after it; the pair is then the
      trimmed text before the first `=` and the trimmed text after it. */
  lemma LineSplitsAtFirstEquals(line: string)
    ensures var t := Trim(line);
      ParseLine(line).Some? <==>
        t != [] && t[0] != '#' && '=' in t && IndexOf(t, '=') > 0 && Trim(t[IndexOf(t, '=') + 1..]) != ""
    ensures var t := Trim(line);
      ParseLine(line).Some? ==>
        '=' in t && ParseLine(line) == Some((Trim(t[..IndexOf(t, '=')]), Trim(t[IndexOf(t, '=') + 1..])))
  {
    assert Trim("") == "";
    var t := Trim(line);
    if t != [] && t[0] != '#' && '=' in t && IndexOf(t, '=') > 0 {
      assert KeyAndRest(t).0 == t[..IndexOf(t, '=')] != "";
    }
  }

  /** Blank lines, comments, lines without `=` and lines with an empty key or value contribute nothing. */
  lemma IgnoredLines(line: string)
    ensures Trim(line) == "" ==> ParseLine(line).None?
    ensures Trim(line) != "" && Trim(line)[0] == '#' ==> ParseLine(line).None?
    ensures '=' !in Trim(line) ==> ParseLine(line).None?
    ensures '=' in Trim(line) && Trim(Trim(line)[IndexOf(Trim(line), '=') + 1..]) == "" ==> ParseLine(line).None?
    ensures '=' in Trim(line) && IndexOf(Trim(line), '=') == 0 ==> ParseLine(line).None?
  {
    if ParseLine(line).Some? {
      LineSplitsAtFirstEquals(line);
    }
  }

  /** A pair as a line contributes it: non-empty key and value, neither with surrounding whitespace. */
  predicate Clean(entry: Option<(string, string)>)
  {
    entry.Some? ==> entry.value.0 != "" && Trim(entry.value.0) == entry.value.0 && entry.value.1 != "" && Trim(entry.value.1) == entry.value.1
  }

  /** What each line contributes, in file order. */
  function Entries(lines: seq<string>): (entries: seq<Option<(string, string)>>)
    ensures |entries| == |lines|
    ensures forall i :: 0 <= i < |lines| ==> entries[i] == ParseLine(lines[i]) && Clean(entries[i])
  {
    seq(|lines|, i requires 0 <= i < |lines| => ParseLine(lines[i]))
  }

  /** `envVars[key] = value` for each contributed pair, one after the other. */
  function StoreAll(entries: seq<Option<(string, string)>>): map<string, string>
  {
    if entries == [] then map[]
    else
      var envVars := StoreAll(entries[..|entries| - 1]);
      match entries[|entries| - 1]
      case None => envVars
      case Some((key, value)) => envVars[key := value]
  }

  /** The variables read from the lines of the file. */
  function EnvFromLines(lines: seq<string>): map<string, string>
  {
    StoreAll(Entries(lines))
  }

  /** Every stored key is non-empty and has no surrounding whitespace; so has every stored value. */
  lemma {:induction false} StoredPairsAreClean(entries: seq<Option<(string, string)>>)
    requires forall i :: 0 <= i < |entries| ==> Clean(entries[i])
    ensures forall k :: k in StoreAll(entries) ==>
      k != "" && Trim(k) == k && StoreAll(entries)[k] != "" && Trim(StoreAll(entries)[k]) == StoreAll(entries)[k]
  {
    if entries != [] {
      StoredPairsAreClean(entries[..|entries| - 1]);
    }
  }

  /** The keys and values read from any file are clean. */
  lemma FileVariablesAreClean(lines: seq<string>)
    ensures forall k :: k in EnvFromLines(lines) ==>
      k != "" && Trim(k) == k && EnvFromLines(lines)[k] != "" && Trim(EnvFromLines(lines)[k]) == EnvFromLines(lines)[k]
  {
    StoredPairsAreClean(Entries(lines));
  }

  /** The position of the last pair that stores `key`, if any. */
  function LastDefining(entries: seq<Option<(string, string)>>, key: string): (r: Option<nat>)
    ensures r.Some? ==> r.value < |entries| && entries[r.value].Some? && entries[r.value].value.0 == key
    ensures r.Some? ==> forall j :: r.value < j < |entries| ==> entries[j].None? || entries[j].value.0 != key
    ensures r.None? ==> forall j :: 0 <= j < |entries| ==> entries[j].None? || entries[j].value.0 != key
  {
    if entries == [] then None
    else
      var last := entries[|entries| - 1];
      if last.Some? && last.value.0 == key then Some(|entries| - 1)
      else
        var r := LastDefining(entries[..|entries| - 1], key);
        assert forall j :: 0 <= j < |entries| - 1 ==> entries[..|entries| - 1][j] == entries[j];
        r
  }

  /** Later lines win: a key is stored exactly when some pair stores it, and its value is the one
      from the last such pair. */
  lemma {:induction false} LastLineWins(entries: seq<Option<(string, string)>>, key: string)
    ensures key in StoreAll(entries) <==> LastDefining(entries, key).Some?
    ensures key in StoreAll(entries) ==> StoreAll(entries)[key] == entries[LastDefining(entries, key).value].value.1
  {
    if entries != [] {
      var init := entries[..|entries| - 1];
      LastLineWins(init, key);
      var last := entries[|entries| - 1];
      if !(last.Some? && last.value.0 == key) {
        assert LastDefining(entries, key) == LastDefining(init, key);
        if LastDefining(init, key).Some? {
          assert entries[LastDefining(init, key).value] == init[LastDefining(init, key).value];
        }
      }
    }
  }

  /** The `forEach` over the lines of the file, writing into the variables one line at a time. */
  method ReadEnvVars(content: string) returns (envVars: map<string, string>)
    ensures envVars == EnvFromLines(Split(content, '\n'))
  {
    var lines := Split(content, '\n');
    ghost var entries := Entries(lines);
    envVars := map[];
    for i := 0 to |lines|
      invariant envVars == StoreAll(entries[..i])
    {
      var entry := ParseLine(lines[i]);
      StoreStep(entries, i);
      if entry.Some? {
        envVars := envVars[entry.value.0 := entry.value.1];
      }
    }
    assert entries[..|lines|] == entries;
  }

  /** Storing one more entry: the pairs stored so far, updated by that entry if it is a pair. */
  lemma StoreStep(entries: seq<Option<(string, string)>>, i: nat)
    requires i < |entries|
    ensures entries[i].None? ==> StoreAll(entries[..i + 1]) == StoreAll(entries[..i])
    ensures entries[i].Some? ==> StoreAll(entries[..i + 1]) == StoreAll(entries[..i])[entries[i].value.0 := entries[i].value.1]
  {
    assert entries[..i + 1][..i] == entries[..i];
  }

  /** The parameters written to `env.json`. */
  datatype EnvParameters = EnvParameters(geminiApiKey: string, googleMapsApiKey: string, nodeEnv: string)

  /** `envVars.NAME || process.env.NAME || ""`. */
  function Setting(envVars: map<string, string>, processEnv: map<string, string>, name: string): (v: string)
    ensures name in envVars && envVars[name] != "" ==> v == envVars[name]
    ensures (name !in envVars || envVars[name] == "") && name in processEnv ==> v == processEnv[name]
    ensures v == "" <==> (name !in envVars || envVars[name] == "") && (name !in processEnv || processEnv[name] == "")
  {
    if name in envVars && envVars[name] != "" then envVars[name]
    else if name in processEnv && processEnv[name] != "" then processEnv[name]
    else ""
  }

  /** The variables read from the file, none when there is no file. */
  function EnvVars(envFile: Option<string>): map<string, string>
  {
    if envFile.Some? then EnvFromLines(Split(envFile.value, '\n')) else map[]
  }

  /** What `loadEnvFile` writes, given the contents of `.env` (None when it does not exist) and the
      process environment. */
  function EnvJson(envFile: Option<string>, processEnv: map<string, string>): (p: EnvParameters)
    ensures p.nodeEnv == "development"
  {
    EnvParameters(
      Setting(EnvVars(envFile), processEnv, "GEMINI_API_KEY"),
      Setting(EnvVars(envFile), processEnv, "GOOGLE_MAPS_API_KEY"),
      "development")
  }

  /** Without a `.env` file the keys come from the process environment, or are empty. */
  lemma NoFileUsesProcessEnv(processEnv: map<string, string>)
    ensures EnvJson(None, processEnv).geminiApiKey ==
      (if "GEMINI_API_KEY" in processEnv then processEnv["GEMINI_API_KEY"] else "")
    ensures EnvJson(None, processEnv).googleMapsApiKey ==
      (if "GOOGLE_MAPS_API_KEY" in processEnv then processEnv["GOOGLE_MAPS_API_KEY"] else "")
  {
  }

  /** A key set in the file overrides the process environment, and the last line setting it wins:
      for any key looked up, and so for both keys written out. */
  lemma FileOverridesProcessEnv(content: string, processEnv: map<string, string>, name: string)
    ensures var lines := Split(content, '\n'); var last := LastDefining(Entries(lines), name);
      last.Some? ==> Setting(EnvVars(Some(content)), processEnv, name) == ParseLine(lines[last.value]).value.1
    ensures var lines := Split(content, '\n'); var last := LastDefining(Entries(lines), "GEMINI_API_KEY");
      last.Some? ==> EnvJson(Some(content), processEnv).geminiApiKey == ParseLine(lines[last.value]).value.1
    ensures var lines := Split(content, '\n'); var last := LastDefining(Entries(lines), "GOOGLE_MAPS_API_KEY");
      last.Some? ==> EnvJson(Some(content), processEnv).googleMapsApiKey == ParseLine(lines[last.value]).value.1
  {
    var entries := Entries(Split(content, '\n'));
    LastLineWins(entries, name);
    LastLineWins(entries, "GEMINI_API_KEY");
    LastLineWins(entries, "GOOGLE_MAPS_API_KEY");
  }

  /** `loadEnvFile`: read the variables when there is a file, then pick the parameters. */
  method LoadEnvFile(envFile: Option<string>, processEnv: map<string, string>) returns (p: EnvParameters)
    ensures p == EnvJson(envFile, processEnv)
  {
    var envVars: map<string, string> := map[];
    if envFile.Some? {
      envVars := ReadEnvVars(envFile.value);
    }
    p := EnvParameters(
      Setting(envVars, processEnv, "GEMINI_API_KEY"),
      Setting(envVars, processEnv, "GOOGLE_MAPS_API_KEY"),
      "development");
  }
}

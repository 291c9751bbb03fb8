/** The `.env` reader run at start-up (loadEnv, backend/main.go): every
    line that is neither blank nor a `#` comment and holds an `=` is cut at
    its first `=`, both halves are trimmed, one pair of matching surrounding
    quotes is dropped from the value, and the pair is put into the process
    environment, so a later line for the same key wins. */
module DotEnv {
  import opened Wrappers
  import opened Text

  type Env = map<Bytes, Bytes>

  /** Blank lines and `#` comments are skipped before anything is parsed:
      a line is skipped exactly when it is all white space or its first
      byte that is not white space is `#`. */
  predicate IsSkipped(line: Bytes)
    ensures IsSkipped(line) <==>
              OnlySpace(line) || exists k :: 0 <= k < |line| && line[k] == HASH && OnlySpace(line[..k])
  {
    SkippedAt(line);
    var t := TrimSpace(line);
    t == [] || t[0] == HASH
  }

  lemma SkippedAt(line: Bytes)
    ensures (TrimSpace(line) == [] || TrimSpace(line)[0] == HASH) <==>
              OnlySpace(line) || exists k :: 0 <= k < |line| && line[k] == HASH && OnlySpace(line[..k])
  {
    var first := TrimSpaceFirst(line);
    if first == |line| {
      assert line[..first] == line;
    } else {
      assert !OnlySpace(line);
      forall k | 0 <= k < |line| && line[k] == HASH && OnlySpace(line[..k])
        ensures k == first
      {
      }
    }
  }

  /** Drops one pair of surrounding quotes when the value is longer than one
      byte and starts with `"` or `'` and ends with the same byte. */
  function Unquote(v: Bytes): (r: Bytes)
    ensures r == v || (|r| == |v| - 2 && r == v[1..|v| - 1])
    ensures r != v <==> |v| > 1 && (v[0] == DOUBLE_QUOTE || v[0] == SINGLE_QUOTE) && v[0] == v[|v| - 1]
  {
    if |v| > 1 && (v[0] == DOUBLE_QUOTE || v[0] == SINGLE_QUOTE) && v[0] == v[|v| - 1] then
      assert |v[1..|v| - 1]| < |v|;
      v[1..|v| - 1]
    else v
  }

  /** One line of the file: the (key, value) pair it assigns, or None. */
  function ParseLine(line: Bytes): (r: Option<(Bytes, Bytes)>)
    ensures r.Some? <==> !IsSkipped(line) && EQUALS in line
    ensures r.Some? ==> IsTrimmed(r.value.0) && EQUALS !in r.value.0
  {
    if IsSkipped(line) then None
    else
      var cut := IndexOf(line, EQUALS);
      if cut < 0 then None
      else
        TrimSpaceOmits(line[..cut], EQUALS);
        Some((TrimSpace(line[..cut]), Unquote(TrimSpace(line[cut + 1..]))))
  }

  /** A line that is not skipped is cut at its first `=`: the key is the
      trimmed text before it and the value the trimmed, unquoted text
      after it, whatever white space surrounds either. */
  lemma ParseLineSplits(pre: Bytes, post: Bytes)
    requires EQUALS !in pre && !IsSkipped(pre + [EQUALS] + post)
    ensures ParseLine(pre + [EQUALS] + post) == Some((TrimSpace(pre), Unquote(TrimSpace(post))))
  {
    var line := pre + [EQUALS] + post;
    assert line[..|pre|] == pre;
    IndexOfFirst(line, EQUALS, |pre|);
    assert line[|pre| + 1..] == post;
  }

  /** What os.Setenv accepts: a non-empty key without `=` or NUL and a
      value without NUL. A refused pair leaves the environment as it was
      (loadEnv ignores the error). */
  predicate Settable(key: Bytes, value: Bytes) {
    key != [] && EQUALS !in key && NUL !in key && NUL !in value
  }

  /** The line sets `key` in the environment. */
  predicate Assigns(line: Bytes, key: Bytes) {
    match ParseLine(line)
    case Some((k, v)) => k == key && Settable(k, v)
    case None => false
  }

  /** The environment after one line has been read: no key is lost and at
      most one is added (ApplyKeeps and ApplySets say which). */
  function Apply(env: Env, line: Bytes): (r: Env)
    ensures env.Keys <= r.Keys
    ensures |r.Keys| <= |env.Keys| + 1
  {
    match ParseLine(line)
    case Some((k, v)) => if Settable(k, v) then env[k := v] else env
    case None => env
  }

  /** The environment after all `lines` have been read, in order: no key
      is lost, and each line adds at most one key. */
  function EnvAfter(env: Env, lines: seq<Bytes>): (r: Env)
    ensures env.Keys <= r.Keys
    ensures |r.Keys| <= |env.Keys| + |lines|
    decreases |lines|
  {
    if lines == [] then env
    else Apply(EnvAfter(env, lines[..|lines| - 1]), lines[|lines| - 1])
  }

  lemma EnvAfterStep(env: Env, lines: seq<Bytes>, i: nat)
    requires i < |lines|
    ensures EnvAfter(env, lines[..i + 1]) == Apply(EnvAfter(env, lines[..i]), lines[i])
  {
    assert lines[..i + 1][..i] == lines[..i];
  }

  /** The scanner loop of loadEnv: reads the lines one by one and sets
      each parsed pair. */
  method LoadEnv(initial: Env, lines: seq<Bytes>) returns (env: Env)
    ensures env == EnvAfter(initial, lines)
  {
    env := initial;
    var i := 0;
    while i < |lines|
      invariant 0 <= i <= |lines|
      invariant env == EnvAfter(initial, lines[..i])
    {
      EnvAfterStep(initial, lines, i);
      var parsed := ParseLine(lines[i]);
      if parsed.Some? {
        var (key, value) := parsed.value;
        if Settable(key, value) {
          env := env[key := value];
        }
      }
      i := i + 1;
    }
    assert lines[..i] == lines;
  }

  /** A line that does not set `key` leaves it as it was. */
  lemma ApplyKeeps(env: Env, line: Bytes, key: Bytes)
    requires !Assigns(line, key)
    ensures (key in Apply(env, line)) == (key in env)
    ensures key in env ==> Apply(env, line)[key] == env[key]
  {
  }

  /** A line that parses to a pair os.Setenv accepts sets it. */
  lemma ApplySets(env: Env, line: Bytes, key: Bytes, value: Bytes)
    requires ParseLine(line) == Some((key, value)) && Settable(key, value)
    ensures Apply(env, line) == env[key := value]
  {
  }

  /** The value a key ends up with is the one from the last line that
      assigns it. */
  lemma {:induction false} LastAssignmentWins(env: Env, lines: seq<Bytes>, i: nat, key: Bytes, value: Bytes)
    requires i < |lines| && ParseLine(lines[i]) == Some((key, value)) && Settable(key, value)
    requires forall j :: i < j < |lines| ==> !Assigns(lines[j], key)
    ensures key in EnvAfter(env, lines) && EnvAfter(env, lines)[key] == value
  {
    var init := lines[..|lines| - 1];
    var last := lines[|lines| - 1];
    assert EnvAfter(env, lines) == Apply(EnvAfter(env, init), last);
    if i < |lines| - 1 {
      assert init[i] == lines[i];
      assert forall j :: i < j < |init| ==> init[j] == lines[j];
      LastAssignmentWins(env, init, i, key, value);
      ApplyKeeps(EnvAfter(env, init), last, key);
    } else {
      ApplySets(EnvAfter(env, init), last, key, value);
    }
  }

  /** A key no line assigns keeps the value (or absence) it had before. */
  lemma {:induction false} UnassignedKeyKept(env: Env, lines: seq<Bytes>, key: Bytes)
    requires forall j :: 0 <= j < |lines| ==> !Assigns(lines[j], key)
    ensures (key in EnvAfter(env, lines)) == (key in env)
    ensures key in env ==> EnvAfter(env, lines)[key] == env[key]
  {
    if lines != [] {
      var init := lines[..|lines| - 1];
      assert forall j :: 0 <= j < |init| ==> init[j] == lines[j];
      UnassignedKeyKept(env, init, key);
      ApplyKeeps(EnvAfter(env, init), lines[|lines| - 1], key);
    }
  }

  /** How an assignment with a double-quoted value is written in a `.env`
      file: `key="value"`. */
  function Quoted(key: Bytes, value: Bytes): Bytes {
    key + [EQUALS, DOUBLE_QUOTE] + value + [DOUBLE_QUOTE]
  }

  /** Reading back a written assignment gives the key and the value, for
      any value (it may itself hold `=`, `#`, quotes or spaces), provided
      the key is a trimmed, non-empty name without `=` that does not start
      with `#`. */
  lemma ParseQuoted(key: Bytes, value: Bytes)
    requires key != [] && IsTrimmed(key) && EQUALS !in key && key[0] != HASH
    ensures ParseLine(Quoted(key, value)) == Some((key, value))
  {
    var rest := [DOUBLE_QUOTE] + value + [DOUBLE_QUOTE];
    assert Quoted(key, value) == key + [EQUALS] + rest;
    ParseAssignment(key, rest);
    UnquoteQuoted(value);
  }

  /** A line made of a name, `=` and a trimmed, non-empty value parses to
      the name and the unquoted value. */
  lemma ParseAssignment(key: Bytes, rest: Bytes)
    requires key != [] && IsTrimmed(key) && EQUALS !in key && key[0] != HASH
    requires rest != [] && IsTrimmed(rest)
    ensures ParseLine(key + [EQUALS] + rest) == Some((key, Unquote(rest)))
  {
    var line := key + [EQUALS] + rest;
    assert IsTrimmed(line) by {
      assert line[0] == key[0] && line[|line| - 1] == rest[|rest| - 1];
    }
    assert line[..|key|] == key;
    IndexOfFirst(line, EQUALS, |key|);
    assert line[|key| + 1..] == rest;
  }

  /** The surrounding double quotes come off again. */
  lemma UnquoteQuoted(value: Bytes)
    ensures Unquote([DOUBLE_QUOTE] + value + [DOUBLE_QUOTE]) == value
  {
  }
}

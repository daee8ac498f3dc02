/** `.env` loading and personality-file validation (src/util/env_utils.py;
    src/utils.py holds the same two functions). */
module EnvUtils {
  import opened Wrappers
  import opened Text
  import opened Config

  /** The process environment, name to value. */
  type Env = map<string, string>

  /** What one line of a `.env` file asks for. */
  datatype LineAction = Skip | Assign(key: string, value: string)

  /** A line that, once stripped, is non-empty, not a comment and contains '='. */
  predicate IsAssignment(line: string) {
    var s := Strip(line);
    s != [] && s[0] != '#' && '=' in s
  }

  /** One line of the loop: strip; skip blank lines, comments and lines
      without '='; otherwise split at the first '=' and strip both halves. */
  function ParseEnvLine(line: string): (a: LineAction)
    ensures a.Assign? <==> IsAssignment(line)
    ensures a.Assign? ==> '=' !in a.key && a.key == Strip(a.key) && a.value == Strip(a.value)
  {
    var s := Strip(line);
    if s == [] || s[0] == '#' || '=' !in s then Skip
    else
      var k := IndexOf(s, '=');
      var key := Strip(s[..k]);
      StripChars(s[..k]);
      StripIdempotent(s[..k]);
      StripIdempotent(s[k + 1..]);
      Assign(key, Strip(s[k + 1..]))
  }

  /** `os.environ.setdefault(key, value)`: a name already present keeps its
      value; otherwise `putenv` stores it, and refuses (ValueError, `None`
      here) an empty name or a NUL character. */
  function SetDefault(env: Env, key: string, value: string): (r: Option<Env>)
    ensures key in env ==> r == Some(env)
    ensures r.Some? ==> env.Keys <= r.value.Keys && key in r.value
    ensures r.Some? ==> forall k | k in env :: r.value[k] == env[k]
  {
    if key in env then Some(env)
    else if key == [] || '\0' in key || '\0' in value then None
    else Some(env[key := value])
  }

  /** What each line of `lines` asks for, in order. */
  function Actions(lines: seq<string>): (acts: seq<LineAction>)
    ensures |acts| == |lines|
    ensures forall i | 0 <= i < |lines| :: acts[i] == ParseEnvLine(lines[i])
  {
    seq(|lines|, i requires 0 <= i < |lines| => ParseEnvLine(lines[i]))
  }

  /** The loop body applied to each action in turn: the environment
      afterwards, and whether an exception ended the loop early (the
      `except` branch that logs a warning). */
  function Apply(acts: seq<LineAction>, env: Env): (r: (Env, bool))
    decreases |acts|
  {
    if acts == [] then (env, false)
    else match acts[0]
      case Skip => Apply(acts[1..], env)
      case Assign(k, v) =>
        match SetDefault(env, k, v)
        case None => (env, true)
        case Some(env') => Apply(acts[1..], env')
  }

  /** The environment after the loop over `lines`, and whether it ended
      early. */
  function LoadLines(lines: seq<string>, env: Env): (Env, bool)
  {
    Apply(Actions(lines), env)
  }

  /** `load_env_file(path)`: `file` is `None` when the path does not exist,
      otherwise the file's lines. */
  method LoadEnvFile(file: Option<seq<string>>, env: Env) returns (env': Env, warned: bool)
    ensures file.None? ==> env' == env && !warned
    ensures file.Some? ==> (env', warned) == LoadLines(file.value, env)
  {
    if file.None? {
      return env, false;
    }
    var lines := file.value;
    ghost var acts := Actions(lines);
    env' := env;
    warned := false;
    var i := 0;
    while i < |lines|
      invariant 0 <= i <= |lines|
      invariant LoadLines(lines, env) == Apply(acts[i..], env')
    {
      assert acts[i..][1..] == acts[i + 1..];
      assert acts[i..][0] == ParseEnvLine(lines[i]);
      match ParseEnvLine(lines[i]) {
        case Skip =>
        case Assign(k, v) =>
          var r := SetDefault(env', k, v);
          if r.None? {
            return env', true;
          }
          env' := r.value;
      }
      i := i + 1;
    }
    assert acts[i..] == [];
  }

  /** Applying actions never removes or overwrites a variable that was set. */
  lemma {:induction false} ApplyKeepsExisting(acts: seq<LineAction>, env: Env)
    ensures env.Keys <= Apply(acts, env).0.Keys
    ensures forall k | k in env :: Apply(acts, env).0[k] == env[k]
    decreases |acts|
  {
    if acts != [] {
      match acts[0]
      case Skip => ApplyKeepsExisting(acts[1..], env);
      case Assign(k, v) =>
        match SetDefault(env, k, v)
        case None =>
        case Some(env') => ApplyKeepsExisting(acts[1..], env');
    }
  }

  /** Loading never removes or overwrites a variable that was set. */
  lemma LoadKeepsExisting(lines: seq<string>, env: Env)
    ensures env.Keys <= LoadLines(lines, env).0.Keys
    ensures forall k | k in env :: LoadLines(lines, env).0[k] == env[k]
  {
    ApplyKeepsExisting(Actions(lines), env);
  }

  /** Every variable that applying adds comes from an assignment action. */
  lemma {:induction false} ApplyAddsOnlyAssigned(acts: seq<LineAction>, env: Env, name: string)
    requires name in Apply(acts, env).0 && name !in env
    ensures exists i | 0 <= i < |acts| :: acts[i] == Assign(name, Apply(acts, env).0[name])
    decreases |acts|
  {
    var r := Apply(acts, env).0;
    match acts[0]
    case Skip =>
      ApplyAddsOnlyAssigned(acts[1..], env, name);
      var i :| 0 <= i < |acts[1..]| && acts[1..][i] == Assign(name, r[name]);
      assert acts[i + 1] == acts[1..][i];
    case Assign(k, v) =>
      match SetDefault(env, k, v)
      case None =>
      case Some(env') =>
        if name == k {
          ApplyKeepsExisting(acts[1..], env');
          assert acts[0] == Assign(name, r[name]);
        } else {
          ApplyAddsOnlyAssigned(acts[1..], env', name);
          var i :| 0 <= i < |acts[1..]| && acts[1..][i] == Assign(name, r[name]);
          assert acts[i + 1] == acts[1..][i];
        }
  }

  /** Every variable that loading adds comes from an assignment line. */
  lemma LoadAddsOnlyAssigned(lines: seq<string>, env: Env, name: string)
    requires name in LoadLines(lines, env).0 && name !in env
    ensures exists i | 0 <= i < |lines| :: ParseEnvLine(lines[i]) == Assign(name, LoadLines(lines, env).0[name])
  {
    var acts := Actions(lines);
    ApplyAddsOnlyAssigned(acts, env, name);
    var i :| 0 <= i < |acts| && acts[i] == Assign(name, Apply(acts, env).0[name]);
    assert ParseEnvLine(lines[i]) == acts[i];
  }

  /** For a variable that is not yet set, the first action assigning it
      wins, provided applying gets that far (no action up to and including
      it is refused). */
  lemma {:induction false} ApplyFirstAssignmentWins(acts: seq<LineAction>, env: Env, j: nat, name: string, v: string)
    requires j < |acts| && acts[j] == Assign(name, v)
    requires name !in env
    requires forall i | 0 <= i < j :: acts[i] == Skip || acts[i].key != name
    requires !Apply(acts[..j + 1], env).1
    ensures name in Apply(acts, env).0 && Apply(acts, env).0[name] == v
    decreases j
  {
    if j == 0 {
      assert acts[..1] == [Assign(name, v)];
      var r := SetDefault(env, name, v);
      ApplyKeepsExisting(acts[1..], r.value);
    } else {
      assert acts[..j + 1][0] == acts[0];
      assert acts[..j + 1][1..] == acts[1..][..j];
      var env' := if acts[0].Skip? then env else SetDefault(env, acts[0].key, acts[0].value).value;
      forall i | 0 <= i < j - 1
        ensures acts[1..][i] == Skip || acts[1..][i].key != name
      {
        assert acts[1..][i] == acts[i + 1];
      }
      ApplyFirstAssignmentWins(acts[1..], env', j - 1, name, v);
    }
  }

  /** The actions of a prefix of the lines are that prefix of the actions. */
  lemma ActionsPrefix(lines: seq<string>, n: nat)
    requires n <= |lines|
    ensures Actions(lines[..n]) == Actions(lines)[..n]
  {
  }

  /** For a variable that is not yet set, the first line assigning it wins,
      provided loading gets that far (no line up to and including it was
      refused). */
  lemma FirstAssignmentWins(lines: seq<string>, env: Env, j: nat, name: string, v: string)
    requires j < |lines| && ParseEnvLine(lines[j]) == Assign(name, v)
    requires name !in env
    requires forall i | 0 <= i < j :: ParseEnvLine(lines[i]) == Skip || ParseEnvLine(lines[i]).key != name
    requires !LoadLines(lines[..j + 1], env).1
    ensures name in LoadLines(lines, env).0 && LoadLines(lines, env).0[name] == v
  {
    ActionsPrefix(lines, j + 1);
    ApplyFirstAssignmentWins(Actions(lines), env, j, name, v);
  }

  /** A well-formed `KEY=VALUE` line is read back as that pair; the value
      may itself contain '='. */
  lemma ParseAssignmentLine(key: string, value: string)
    requires key != [] && key[0] != '#' && '=' !in key
    requires key == Strip(key) && value == Strip(value)
    ensures ParseEnvLine(key + "=" + value) == Assign(key, value)
  {
    var s := key + "=" + value;
    AssignmentStripped(key, value);
    assert s[0] == key[0];
    assert s[|key|] == '=';
    assert IsAssignment(s);
    IndexOfPrefix(key, "=" + value, '=');
    assert s[..|key|] == key;
    assert s[|key| + 1..] == value;
    var a := ParseEnvLine(s);
    assert a == Assign(Strip(s[..IndexOf(s, '=')]), Strip(s[IndexOf(s, '=') + 1..]));
  }

  lemma AssignmentStripped(key: string, value: string)
    requires key != [] && !IsSpace(key[0])
    requires value == Strip(value)
    ensures Strip(key + "=" + value) == key + "=" + value
  {
    var s := key + "=" + value;
    assert s[0] == key[0];
    if value != [] {
      assert s[|s| - 1] == value[|value| - 1];
    } else {
      assert s[|s| - 1] == '=';
    }
    StripShape([], s, []);
    assert [] + s + [] == s;
  }

  lemma IndexOfPrefix(a: string, b: string, c: char)
    requires c !in a && b != [] && b[0] == c
    ensures IndexOf(a + b, c) == |a|
  {
    var s := a + b;
    assert s[..|a|] == a;
    assert s[|a|] == c;
  }

  /** The keys every personality must define, in the order they are checked. */
  const RequiredKeys: seq<string> := ["voice", "speed", "systemPrompt"]

  /** `os.path.join("personalities", name + ".json")`; an absolute second
      part replaces the directory. */
  function PersonalityPath(name: string): string {
    if StartsWith(name, "/") then name + ".json" else "personalities/" + name + ".json"
  }

  /** Index of the first required key missing from `doc` (3 when none is). */
  function FirstMissing(doc: Document, i: nat): (k: nat)
    requires i <= |RequiredKeys|
    ensures i <= k <= |RequiredKeys|
    ensures forall j | i <= j < k :: Has(doc, RequiredKeys[j])
    ensures k < |RequiredKeys| ==> !Has(doc, RequiredKeys[k])
    decreases |RequiredKeys| - i
  {
    if i < |RequiredKeys| && Has(doc, RequiredKeys[i]) then FirstMissing(doc, i + 1) else i
  }

  /** `load_personality(name)`.  The key checks are `in` tests, so a list
      or a string holding the three names passes them and is returned as it
      is, while a number, a boolean or null makes the first test raise
      TypeError. */
  function LoadPersonality(name: string, files: Files): (r: Result<Document, LoadError>)
    ensures r == Err(FileNotFound(PersonalityPath(name))) <==> PersonalityPath(name) !in files
    ensures PersonalityPath(name) in files && files[PersonalityPath(name)].Unreadable? ==>
      r == Err(Undecodable(PersonalityPath(name)))
    ensures PersonalityPath(name) in files && files[PersonalityPath(name)] == Parsed(DScalar) ==>
      r == Err(NotContainer(PersonalityPath(name)))
    ensures r.Ok? <==>
      && PersonalityPath(name) in files && files[PersonalityPath(name)].Parsed?
      && !files[PersonalityPath(name)].doc.DScalar?
      && forall k | k in RequiredKeys :: Has(files[PersonalityPath(name)].doc, k)
    ensures r.Ok? ==> r.value == files[PersonalityPath(name)].doc
    ensures r.Err? && r.error.MissingKey? ==>
      && PersonalityPath(name) in files && files[PersonalityPath(name)].Parsed?
      && !files[PersonalityPath(name)].doc.DScalar?
      && r.error.name == name && r.error.key in RequiredKeys
      && !Has(files[PersonalityPath(name)].doc, r.error.key)
      && forall j | 0 <= j < |RequiredKeys| && RequiredKeys[j] == r.error.key ::
           forall i | 0 <= i < j :: Has(files[PersonalityPath(name)].doc, RequiredKeys[i])
  {
    var path := PersonalityPath(name);
    if path !in files then Err(FileNotFound(path))
    else match files[path]
      case Unreadable => Err(Undecodable(path))
      case Parsed(doc) =>
        if doc.DScalar? then Err(NotContainer(path))
        else
          var k := FirstMissing(doc, 0);
          if k < |RequiredKeys| then Err(MissingKey(name, RequiredKeys[k])) else Ok(doc)
  }

  /** A top-level list naming the three keys passes the checks and comes
      back unchanged, although it is not an object. */
  lemma ListPassesChecks(name: string, files: Files)
    requires PersonalityPath(name) in files
    requires files[PersonalityPath(name)] == Parsed(DList([JStr("voice"), JStr("speed"), JStr("systemPrompt")]))
    ensures LoadPersonality(name, files) == Ok(DList([JStr("voice"), JStr("speed"), JStr("systemPrompt")]))
  {
    var doc := files[PersonalityPath(name)].doc;
    assert doc.items[0] == JStr(RequiredKeys[0]);
    assert doc.items[1] == JStr(RequiredKeys[1]);
    assert doc.items[2] == JStr(RequiredKeys[2]);
  }
}

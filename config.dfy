/** Environment-variable substitution over a parsed configuration tree.

    A configuration file is parsed into a tree of mappings, lists and scalar
    leaves. Every string leaf that is, as a whole, a placeholder `${NAME}` is
    replaced by the value of the environment variable NAME; a placeholder whose
    variable is unset is kept verbatim. The process environment is an explicit
    `Env` parameter here.
 */
module Config {

  datatype Option<T> = None | Some(value: T)

  /** Values the substitution never looks into. A float is kept as the text it
      was written with; no arithmetic is done on it. `Opaque` stands for every
      other parsed value that is neither a mapping, a list nor a string: dates,
      timestamps, binary data, sets and tuples. Sets and tuples are containers,
      but they are not walked, so strings inside them are never substituted. */
  datatype Scalar = Null | Bool(b: bool) | Int(i: int) | Float(text: string) | Opaque(text: string)

  /** A parsed configuration value: a mapping with string keys, a list, a
      string leaf, or any other scalar. */
  datatype Tree =
    | Mapping(entries: map<string, Tree>)
    | List(items: seq<Tree>)
    | Str(s: string)
    | Other(scalar: Scalar)

  /** The process environment: variable name to value. */
  type Env = map<string, string>

  // ---------------------------------------------------------------------------
  // Placeholders

  predicate StartsWith(s: string, prefix: string) {
    |prefix| <= |s| && s[..|prefix|] == prefix
  }

  predicate EndsWith(s: string, suffix: string) {
    |suffix| <= |s| && s[|s| - |suffix|..] == suffix
  }

  /** A string is a placeholder when it starts with `${` and ends with `}`.
      Since the second character is `{`, such a string has at least three
      characters: `${` and `}` never overlap. */
  predicate IsPlaceholder(s: string)
    ensures IsPlaceholder(s) ==> |s| >= 3 && s[0] == '$' && s[1] == '{' && s[|s| - 1] == '}'
  {
    assert StartsWith(s, "${") ==> s[0] == s[..2][0] && s[1] == s[..2][1];
    assert EndsWith(s, "}") ==> s[|s| - 1] == s[|s| - 1..][0];
    StartsWith(s, "${") && EndsWith(s, "}")
  }

  /** The variable name of a placeholder: the string without its first two
      characters and its last one. The placeholder is exactly that name
      wrapped in `${` and `}`. */
  function PlaceholderName(s: string): (name: string)
    requires IsPlaceholder(s)
    ensures s == "${" + name + "}"
    ensures |name| == |s| - 3
  {
    s[2..|s| - 1]
  }

  /** Wraps a name into a placeholder; the inverse of PlaceholderName. */
  function Placeholder(name: string): (s: string)
    ensures IsPlaceholder(s)
    ensures PlaceholderName(s) == name
  {
    var s := "${" + name + "}";
    assert s[..2] == "${";
    assert s[|s| - 1..] == "}";
    assert s[2..|s| - 1] == name;
    s
  }

  /** Lookup with a default, as `os.getenv(name, default)`. */
  function Getenv(env: Env, name: string, default: string): string {
    if name in env then env[name] else default
  }

  // ---------------------------------------------------------------------------
  // Substitution

  /** The string-leaf case: a placeholder whose name is bound becomes the bound
      value; every other string, including a placeholder whose name is unbound,
      is returned as it is. */
  function SubstituteString(s: string, env: Env): (r: string)
    ensures !IsPlaceholder(s) ==> r == s
    ensures r == s || (IsPlaceholder(s) && PlaceholderName(s) in env && r == env[PlaceholderName(s)])
  {
    if IsPlaceholder(s) then Getenv(env, PlaceholderName(s), s) else s
  }

  /** Substitutes environment variables throughout a configuration tree.
      Mappings keep their keys and lists their length and order; other scalars
      come back unchanged. */
  function SubstituteEnvVars(t: Tree, env: Env): (r: Tree)
    ensures t.Mapping? <==> r.Mapping?
    ensures t.Mapping? ==> r.entries.Keys == t.entries.Keys
    ensures t.List? <==> r.List?
    ensures t.List? ==> |r.items| == |t.items|
    ensures t.Str? <==> r.Str?
    ensures t.Other? ==> r == t
  {
    match t
    case Mapping(m) => Mapping(map k | k in m :: SubstituteEnvVars(m[k], env))
    case List(xs) => List(seq(|xs|, i requires 0 <= i < |xs| => SubstituteEnvVars(xs[i], env)))
    case Str(s) => Str(SubstituteString(s, env))
    case Other(_) => t
  }

  // ---------------------------------------------------------------------------
  // Leaf-level laws

  /** A placeholder whose name is bound becomes exactly the bound value. */
  lemma SubstituteBound(name: string, env: Env)
    requires name in env
    ensures SubstituteString(Placeholder(name), env) == env[name]
  {
  }

  /** A placeholder whose name is unbound is kept verbatim, without error. */
  lemma SubstituteUnbound(name: string, env: Env)
    requires name !in env
    ensures SubstituteString(Placeholder(name), env) == Placeholder(name)
  {
  }

  /** `${}` is a placeholder whose name is empty. */
  lemma EmptyName()
    ensures IsPlaceholder("${}") && PlaceholderName("${}") == ""
  {
  }

  /** A placeholder embedded in a longer string is not substituted, whatever
      the environment holds. */
  lemma EmbeddedPlaceholderUnchanged(env: Env)
    ensures SubstituteString("prefix-${FOO}-suffix", env) == "prefix-${FOO}-suffix"
  {
  }

  // ---------------------------------------------------------------------------
  // Tree-level laws

  /** A step into a tree: a key of a mapping or an index of a list. */
  datatype Step = Key(k: string) | Index(i: nat)

  /** The subtree reached by following a path, if every step exists. */
  function At(t: Tree, p: seq<Step>): Option<Tree>
    decreases |p|
  {
    if p == [] then Some(t)
    else match p[0]
      case Key(k) => if t.Mapping? && k in t.entries then At(t.entries[k], p[1..]) else None
      case Index(i) => if t.List? && i < |t.items| then At(t.items[i], p[1..]) else None
  }

  /** The traversal reaches every depth: a path exists in the result exactly
      when it exists in the input, and leads to the substitution of the
      subtree it leads to in the input. */
  lemma {:induction false} SubstituteAt(t: Tree, env: Env, p: seq<Step>)
    ensures At(SubstituteEnvVars(t, env), p).Some? <==> At(t, p).Some?
    ensures At(t, p).Some? ==> At(SubstituteEnvVars(t, env), p) == Some(SubstituteEnvVars(At(t, p).value, env))
    decreases |p|
  {
    if p != [] {
      match p[0]
      case Key(k) =>
        if t.Mapping? && k in t.entries {
          SubstituteAt(t.entries[k], env, p[1..]);
        }
      case Index(i) =>
        if t.List? && i < |t.items| {
          SubstituteAt(t.items[i], env, p[1..]);
        }
    }
  }

  /** A placeholder at any depth whose name is bound is replaced by its value. */
  lemma {:induction false} NestedPlaceholderSubstituted(t: Tree, env: Env, p: seq<Step>, name: string)
    requires At(t, p) == Some(Str(Placeholder(name)))
    requires name in env
    ensures At(SubstituteEnvVars(t, env), p) == Some(Str(env[name]))
  {
    SubstituteAt(t, env, p);
  }

  /** A placeholder at any depth whose name is unbound is kept verbatim. */
  lemma {:induction false} NestedPlaceholderKept(t: Tree, env: Env, p: seq<Step>, name: string)
    requires At(t, p) == Some(Str(Placeholder(name)))
    requires name !in env
    ensures At(SubstituteEnvVars(t, env), p) == Some(Str(Placeholder(name)))
  {
    SubstituteAt(t, env, p);
  }

  /** The tree with every string leaf blanked: mappings, keys, lists and
      other scalars are kept. */
  function Shape(t: Tree): Tree {
    match t
    case Mapping(m) => Mapping(map k | k in m :: Shape(m[k]))
    case List(xs) => List(seq(|xs|, i requires 0 <= i < |xs| => Shape(xs[i])))
    case Str(_) => Str("")
    case Other(_) => t
  }

  /** Only string leaves change: keys are never substituted, and the nesting of
      mappings and lists, list order and every non-string scalar survive at
      every depth. */
  lemma {:induction false} ShapePreserved(t: Tree, env: Env)
    ensures Shape(SubstituteEnvVars(t, env)) == Shape(t)
  {
    match t
    case Mapping(m) =>
      forall k | k in m
        ensures Shape(SubstituteEnvVars(m[k], env)) == Shape(m[k])
      {
        ShapePreserved(m[k], env);
      }
    case List(xs) =>
      forall i | 0 <= i < |xs|
        ensures Shape(SubstituteEnvVars(xs[i], env)) == Shape(xs[i])
      {
        ShapePreserved(xs[i], env);
      }
    case Str(_) =>
    case Other(_) =>
  }

  /** No string leaf, at any depth, is a placeholder. */
  predicate NoPlaceholders(t: Tree) {
    match t
    case Mapping(m) => forall k | k in m :: NoPlaceholders(m[k])
    case List(xs) => forall i | 0 <= i < |xs| :: NoPlaceholders(xs[i])
    case Str(s) => !IsPlaceholder(s)
    case Other(_) => true
  }

  /** Identity law: a tree without placeholders comes back identical. */
  lemma {:induction false} IdentityLaw(t: Tree, env: Env)
    requires NoPlaceholders(t)
    ensures SubstituteEnvVars(t, env) == t
  {
    match t
    case Mapping(m) =>
      forall k | k in m
        ensures SubstituteEnvVars(m[k], env) == m[k]
      {
        IdentityLaw(m[k], env);
      }
      assert (map k | k in m :: SubstituteEnvVars(m[k], env)) == m;
    case List(xs) =>
      forall i | 0 <= i < |xs|
        ensures SubstituteEnvVars(xs[i], env) == xs[i]
      {
        IdentityLaw(xs[i], env);
      }
      assert seq(|xs|, i requires 0 <= i < |xs| => SubstituteEnvVars(xs[i], env)) == xs;
    case Str(_) =>
    case Other(_) =>
  }

  /** With an empty environment every tree comes back unchanged: every
      placeholder is unbound and kept verbatim. */
  lemma {:induction false} EmptyEnvironmentIdentity(t: Tree)
    ensures SubstituteEnvVars(t, map[]) == t
  {
    match t
    case Mapping(m) =>
      forall k | k in m
        ensures SubstituteEnvVars(m[k], map[]) == m[k]
      {
        EmptyEnvironmentIdentity(m[k]);
      }
      assert (map k | k in m :: SubstituteEnvVars(m[k], map[])) == m;
    case List(xs) =>
      forall i | 0 <= i < |xs|
        ensures SubstituteEnvVars(xs[i], map[]) == xs[i]
      {
        EmptyEnvironmentIdentity(xs[i]);
      }
      assert seq(|xs|, i requires 0 <= i < |xs| => SubstituteEnvVars(xs[i], map[])) == xs;
    case Str(_) =>
    case Other(_) =>
  }

  /** A mapping holding a list holding a mapping: the placeholder at the
      bottom is substituted and its neighbours are kept. */
  lemma NestedExample()
    ensures
      var env: Env := map["DATA_DIR" := "/data"];
      var t := Mapping(map["paths" := List([Mapping(map["raw" := Str("${DATA_DIR}"), "ratio" := Other(Float("0.2"))])])]);
      SubstituteEnvVars(t, env)
        == Mapping(map["paths" := List([Mapping(map["raw" := Str("/data"), "ratio" := Other(Float("0.2"))])])])
  {
    var env: Env := map["DATA_DIR" := "/data"];
    var inner := map["raw" := Str("${DATA_DIR}"), "ratio" := Other(Float("0.2"))];
    assert Placeholder("DATA_DIR") == "${DATA_DIR}";
    SubstituteBound("DATA_DIR", env);
    var innerOut := map["raw" := Str("/data"), "ratio" := Other(Float("0.2"))];
    assert SubstituteEnvVars(Str("${DATA_DIR}"), env) == Str("/data");
    assert (map k | k in inner :: SubstituteEnvVars(inner[k], env)) == innerOut;
    assert SubstituteEnvVars(List([Mapping(inner)]), env) == List([Mapping(innerOut)]);
  }
}

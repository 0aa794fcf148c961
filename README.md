# Configuration environment-variable substitution

This project models the configuration loader's substitution step. The loader
parses a YAML configuration file into a tree of mappings, lists and scalars.
It then walks that tree and replaces each string leaf that is, as a whole, a
placeholder `${NAME}` with the value of the environment variable `NAME`. A
placeholder whose variable is unset stays as it was, and no error is raised.
Mappings keep their keys, lists keep their order, and every other scalar
passes through untouched.

The model is one module, `Config` in `config.dfy`:

- `Tree` is the parsed value: `Mapping` (string keys), `List`, `Str`, or
  `Other` for numbers, booleans, null, floats and every other parsed value
  (`Opaque`). A float is kept as opaque text.
- The process environment is an explicit `Env` (a `map<string, string>`).
  `Getenv` plays the part of `os.getenv(name, default)`.
- `SubstituteEnvVars` is the recursive walk. `SubstituteString` is its
  string-leaf case.
- `At` follows a path of keys and indices into a tree. The lemmas use it to
  talk about placeholders at any depth.

The placeholder test follows the code, not a stricter reading of it. Any
string that starts with `${` and ends with `}` matches. The name is whatever
lies between them: it may be empty (`${}`) and need not be an identifier
(`${a}b}` has the name `a}b`).

## Model

| member | source | states |
|---|---|---|
| `Config.IsPlaceholder` | python/project-name/src/utils/config.py:48 | a string passes the starts-with-`${`/ends-with-`}` test only if it has at least three characters, begins `$`, `{` and ends `}` |
| `Config.PlaceholderName` | python/project-name/src/utils/config.py:49 | the extracted name is the placeholder minus its first two and last character: the placeholder is exactly `${` + name + `}` |
| `Config.Placeholder` | python/project-name/src/utils/config.py:48-49 | every name wrapped as `${name}` passes the placeholder test and extracts back to that name, so placeholders are exactly the wrapped names |
| `Config.SubstituteString` | python/project-name/src/utils/config.py:48-52 | a string that is not a placeholder comes back unchanged; any other result is the environment value bound to the placeholder's name (the lookup `Getenv`, standing for `os.getenv(name, default)` with the placeholder itself as default, is pinned by this contract and by `SubstituteBound`/`SubstituteUnbound`) |
| `Config.SubstituteEnvVars` | python/project-name/src/utils/config.py:44-52 | the result is a mapping, list or string exactly when the input is; a mapping keeps its key set, a list its length; non-string scalars come back unchanged |
| `Config.SubstituteBound` | python/project-name/src/utils/config.py:48-50 | `${NAME}` with `NAME` bound becomes exactly the bound value |
| `Config.SubstituteUnbound` | python/project-name/src/utils/config.py:50 | `${NAME}` with `NAME` unbound is returned verbatim |
| `Config.EmptyName` | python/project-name/src/utils/config.py:48-49 | `${}` is a placeholder and its name is the empty string |
| `Config.EmbeddedPlaceholderUnchanged` | python/project-name/src/utils/config.py:48-52 | `prefix-${FOO}-suffix` is returned unchanged whatever the environment holds |
| `Config.SubstituteAt` | python/project-name/src/utils/config.py:44-47 | a key/index path exists in the result exactly when it exists in the input, and leads to the substitution of the input's subtree there (mappings walked key by key, lists index by index, in order) |
| `Config.NestedPlaceholderSubstituted` | python/project-name/src/utils/config.py:34-52 | a placeholder at any depth whose name is bound is replaced by the bound value at the same path |
| `Config.NestedPlaceholderKept` | python/project-name/src/utils/config.py:34-52 | a placeholder at any depth whose name is unbound stays verbatim at the same path |
| `Config.ShapePreserved` | python/project-name/src/utils/config.py:44-47 | erasing string contents, input and result are equal: keys are never substituted, and nesting, list order and non-string scalars are kept at every depth |
| `Config.IdentityLaw` | python/project-name/src/utils/config.py:34-52 | a tree with no placeholder-shaped string at any depth is returned identical, whatever the environment |
| `Config.EmptyEnvironmentIdentity` | python/project-name/src/utils/config.py:34-52 | with an empty environment every tree is returned identical |
| `Config.NestedExample` | python/project-name/src/utils/config.py:44-50 | in a mapping holding a list holding a mapping, the placeholder at the bottom is substituted and the float beside it is kept |

## Left out

- `load_config` (python/project-name/src/utils/config.py:10-31): reading the `.env` file into the process environment, the file-exists check and its `FileNotFoundError`, and YAML parsing are file I/O and a foreign parser. The model starts from the parsed tree and an explicit environment.
- `setup_logging` and `get_logger` (python/project-name/src/utils/logging.py): wrappers over the standard logging module and directory creation, all side effects.
- The test fixtures (python/project-name/tests/conftest.py): random data, data frames and temporary directories.
- Mapping keys are strings only. YAML can produce other key types, but keys are never substituted, so nothing about them is lost.
- Mapping insertion order is not kept: a mapping is a Dafny `map`. No property of the substitution depends on the order.
- Values other than mappings, lists and strings are one `Other` case that is never looked into: numbers, booleans and null have their own `Scalar` constructors, a float is kept as text with no arithmetic, and everything else the YAML loader can produce (dates, timestamps, binary data, sets, the tuples of ordered-pair lists) is `Opaque` text. Sets and tuples are containers, but the walk does not enter them, so a placeholder inside one is returned unsubstituted; the model keeps them whole and does not represent their contents.
- Self-referential input is not modelled. The model covers finite, acyclic trees compared by value. A list or mapping that contains itself (a YAML anchor aliased inside its own node), or nesting deeper than the interpreter's recursion limit, makes the walk raise `RecursionError`; neither case can be built as a `Tree`. Subtrees shared through aliases come back as separate copies, which a value model cannot tell apart from the original sharing.
- `Getenv`: platform rules for environment-variable names (case folding on some systems, names the operating system refuses) are not modelled. The environment is a plain exact-match map.

# gpr-rust: a verified model of the binding's decision logic

gpr-rust is a Rust binding to AdaCore's GPR2 project-file engine. The engine is
called through one C dispatcher that takes an operation id and a JSON request
and hands back a JSON answer envelope `{result, status, error_msg, error_name}`.
The build script fetches and builds the engine. It also assembles the
environment for the tools it runs from the inherited variables and from
`alr printenv --unix`.

This project models the three pieces of pure decision logic in that code:

- **Error mapping** (`GprError`, from `src/error.rs`). The engine's integer
  status becomes an `Option<Error>`. `invalid_attribute` records the
  rejected value; `invalid_attribute_value` records only the value's shape.
- **Answer interpretation** (`Answers`, `Binding`, `Attributes`, from
  `src/binding.rs`).
  - The decoded JSON is a `JsonValue.Value`.
  - The derived decoders of `Tree`, `Attribute`, the untagged `Result`
    (here `Payload`) and `ResultWrapper` are modelled, and so is the `Answer`
    envelope. Untagged variants are tried in declaration order.
  - Encoders are written as their inverses. Each decoder is proved to read
    back what the matching encoder writes.
  - `unwrap_result` is modelled.
  - The requests of `Tree::load` (op 1) and `Tree::get_attribute` (op 8) are
    modelled, together with the shape check each applies to the result.
  - The foreign call and the JSON text parser are the two functions of a
    `Channel` parameter.
- **Build environment** (`BuildEnv`, from `build.rs`).
  - The inherited variables are filtered.
  - The printenv output is parsed line by line into the environment.
  - The virtual environment is entered: `VIRTUAL_ENV` is set and its `bin`
    directory is prepended to `PATH`.
  - The two `GPR_PROJECT_PATH` steps are modelled.

Panics (`unwrap` of `None`, a failed `strip_prefix(..).unwrap()`) are an
explicit `Run.Panics` outcome rather than preconditions. `Strings` models the
Rust `str` operations the parser relies on: `starts_with`, `ends_with`,
`find`, `split_once`, `split`, `strip_prefix` and `strip_suffix`.

Three consequences of the code are worth stating plainly:

- An empty result with status 0 panics (`Option::unwrap` in `unwrap_result`);
  it is not reported as an error. Because the empty struct accepts every
  object, this includes a tree answer that lacks a required member
  (`LoadPanicsOnIncompleteTree`).
- A decoded result is returned whatever the status.
- No status maps to `IOError`.

`Binding.ReadQuery` is the engine's reading of a request (operation id plus
members). The source does not contain it. It is the reference against which
the requests are stated.

## Model

| member | source | states |
|---|---|---|
| Attributes.Display | src/binding.rs:71-78 | an attribute value displays as "Single" exactly when it is single-valued and as "List" exactly when it is a list |
| Attributes.DisplayIsShapeOnly | src/binding.rs:71-78 | two values display alike if and only if they have the same shape, whatever their contents |
| GprError.FromCode | src/error.rs:51-57 | the engine error keeps the given code, name and message unchanged |
| GprError.FromStatus | src/error.rs:59-71 | status 0 gives no error. 1 gives InvalidRequest, 2 gives CallError and 3 gives UnknownError, each keeping the engine's name and message. Any other status, negative or above 3, gives UnknownError named "UnknownError" with message "unknown code". No status gives IOError |
| GprError.StatusRoundTrip | src/error.rs:59-71 | a code reported under its status maps back to that code with the same name and message. Among statuses 1-3 only that status does so. IOError, which has no status, is never produced |
| GprError.UnknownStatusDiscardsText | src/error.rs:65-69 | for a status outside 0-3 the result does not depend on the engine's name and message |
| GprError.ForInvalidAttribute | src/error.rs:73-79 | the error names the file, the attribute and the rejected value |
| GprError.ForInvalidAttributeValue | src/error.rs:81-91 | the error names the file and the attribute. Its value is "Single" or "List" according to the value's shape |
| GprError.InvalidAttributeValueIsShapeOnly | src/error.rs:81-91 | two values give the same error if and only if they have the same shape: the contents are never recorded |
| Answers.DecodeTree | src/binding.rs:38-62 | an object decodes as a tree exactly when the seven required members are present and well typed and each of the five Option members is absent, null or a string, whatever other members it carries. The required text members must be strings, search_paths and views arrays of strings, and context an object of strings. Each field of the tree comes from the member of the same name |
| Answers.DecodeAttribute | src/binding.rs:80-85 | an attribute decodes exactly when `value` decodes as an attribute value and `is_default` is a boolean, and it holds those two |
| Answers.DecodeAttributeWrapper | src/binding.rs:87-90 | an attribute wrapper decodes exactly when its `attribute` member decodes as an attribute, and it holds that attribute |
| Answers.DecodeAnswer | src/binding.rs:102-108 | an envelope decodes exactly when `result` decodes, `status` is a 32-bit integer and `error_msg` and `error_name` are strings. The decoded envelope holds exactly those values |
| Answers.DecodeAttributeValue | src/binding.rs:64-69 | a JSON string decodes as Single holding that string. Otherwise an array of strings decodes as List holding those strings in order. Anything else fails |
| Answers.DecodePayload | src/binding.rs:31-36 | Tree is tried before Attribute: whatever decodes as a tree is a tree, and only a non-tree may be an attribute |
| Answers.DecodeResultWrapper | src/binding.rs:92-100 | Valid is tried before Empty. Every object that is neither a tree nor an attribute decodes as Empty, and a non-object fails |
| Answers.EncodeTree | src/binding.rs:38-62 | a tree written with exactly its twelve members decodes back to the same tree |
| Answers.EncodeAttributeWrapper | src/binding.rs:80-90 | an attribute written as `{"attribute": {value, is_default}}` decodes back to the same attribute. Its only member is `attribute`, so it has none of a tree's members |
| Answers.EncodeAnswer | src/binding.rs:102-108 | every envelope (result, status, error_msg, error_name) decodes back to itself |
| Answers.TreeTakesPrecedence | src/binding.rs:31-36 | an object carrying the members of both a tree and an attribute reads as both, and the envelope keeps the tree |
| Answers.IncompleteTreeReadsAsEmpty | src/binding.rs:92-100 | a tree lacking any one required member (id, root_view, target, canonical_target, search_paths, views or context) falls back to the Empty variant |
| Binding.LoadRequest | src/binding.rs:135-139 | the load request has operation id 1 and the single member `filename`, which reads back as the file given |
| Binding.AttributeRequest | src/binding.rs:152-158 | the attribute request has operation id 8 and the members tree_id, view_id and name. They read back as the tree's id, its root view and the name unchanged |
| Binding.Receive | src/binding.rs:22-29 | a transport failure is a Cstring error and a parsing failure a Json error. Once the text arrives, the call succeeds exactly when the text parses and reads as an envelope. The answer returned is that envelope, with the exchanged text |
| Binding.UnwrapResult | src/binding.rs:122-131 | a decoded result is returned whatever the status. An empty result with a non-zero status is exactly the error `from_status` gives. It panics exactly when the result is empty and the status is 0. Errors are never IOError |
| Binding.ExpectTree | src/binding.rs:141-148 | it succeeds exactly on a tree result and returns that tree. An attribute result is `Gpr{UnknownError, "InvalidResponse", raw answer}` |
| Binding.ExpectAttribute | src/binding.rs:160-167 | it succeeds exactly on an attribute result and returns its attribute. A tree result is `Gpr{UnknownError, "InvalidResponse", raw answer}` |
| Binding.Load | src/binding.rs:134-149 | an answer that is not UTF-8 gives a Cstring error. Every other error that is not a decoding error is an engine error other than IOError |
| Binding.GetAttribute | src/binding.rs:151-168 | the same as Load, for the attribute request |
| Binding.LoadAnswered | src/binding.rs:134-149 | for any answer text that reads as an envelope, a load yields a tree result whatever the status. It rejects an attribute as InvalidResponse, reports an empty result's status, and panics exactly on an empty result with status 0 |
| Binding.GetAttributeAnswered | src/binding.rs:151-168 | for any answer text that reads as an envelope, get_attribute yields an attribute result whatever the status. It rejects a tree as InvalidResponse, reports an empty result's status, and panics exactly on an empty result with status 0 |
| Binding.LoadUndecodable | src/binding.rs:139-140 | answer text that is not JSON, or not an envelope, gives a Json error and never a panic |
| Binding.GetAttributeUndecodable | src/binding.rs:158-159 | for the attribute request, answer text that is not JSON, or not an envelope, gives a Json error and never a panic |
| Binding.LoadPanicsOnIncompleteTree | src/binding.rs:122-131 | a load answered with status 0 and a tree lacking any one required member panics |
| Binding.GetAttributeRejectsTreeFirstObject | src/binding.rs:160-166 | an object that is both a tree and an attribute is rejected by get_attribute as InvalidResponse |
| Strings.SplitOnce | build.rs:141-142 | the split is at the first separator. There is none exactly when the text lacks the separator |
| Strings.SplitOnceAt | build.rs:141-142 | text of the form head, separator, tail with no separator in head splits into exactly that head and tail |
| Strings.Split | build.rs:137 | splitting gives at least one piece, and no piece contains the separator |
| Strings.StripPrefix | build.rs:145-146 | a prefix is stripped exactly when the text starts with it, and prefix plus remainder give the text back |
| Strings.StripSuffix | build.rs:147-148 | a suffix is stripped exactly when the text ends with it, and remainder plus suffix give the text back |
| Wrappers.Unwrap | src/binding.rs:127-128 | unwrapping panics exactly on None, and otherwise returns the value held |
| Strings.JoinSplit | build.rs:137 | splitting on newlines loses nothing: rejoining the lines gives the output back |
| Strings.SplitJoin | build.rs:137 | lines joined with newlines split back into the same lines when none contains a newline |
| BuildEnv.InheritedEnv | build.rs:90-92 | exactly the inherited variables whose name does not end in ALIRE_PREFIX are kept, with their values unchanged |
| BuildEnv.ClassifyLine | build.rs:137-152 | a line that does not start with "export", or has no space, is skipped. A key read from a line contains no '=' |
| BuildEnv.ExportShape | build.rs:141-150 | every assignment comes from a line shaped `export... KEY="VALUE"`: a first word starting with export, one space, the key, '=', and the value in quotes |
| BuildEnv.ClassifyAssignment | build.rs:141-150 | the key is the text between the first space and the next '='. The value is everything after it, '=' included, with one quote stripped from each end. A value without both quotes panics |
| BuildEnv.ClassifyNoAssignment | build.rs:141-142 | a line without '=' after its first space is skipped |
| BuildEnv.ClassifyExportLine | build.rs:141-150 | a line written as `export KEY="VALUE"` reads as that assignment |
| BuildEnv.Perform | build.rs:138-151 | a skipped line leaves the environment unchanged. An assignment sets its key and leaves all other keys as they were. An unquoted assignment panics |
| BuildEnv.FoldLines | build.rs:137-153 | the loop only adds keys: every inherited key is kept, and a new key was assigned by some line |
| BuildEnv.ImportPrintenv | build.rs:137-153 | the parse of the whole output panics exactly when some line is an unquoted assignment. Otherwise every key holds its last assigned value, or its inherited one |
| BuildEnv.FoldLinesPanics | build.rs:137-153 | the parse panics exactly when some line is an unquoted assignment |
| BuildEnv.FoldLinesResolves | build.rs:137-153 | after the parse every key holds the value of its last assignment, or its inherited value when it was never assigned: later lines win |
| BuildEnv.PrintenvRoundTrip | build.rs:137-153 | parsing output written as `export KEY="VALUE"` lines performs exactly those assignments in order. Values may contain '=' and quotes |
| BuildEnv.PrintenvTrailingNewline | build.rs:137-153 | output written as `export KEY="VALUE"` lines and ended by a newline, as command output is, performs exactly those assignments in order: the empty last piece is skipped |
| BuildEnv.JoinPath | build.rs:165 | joining adds one '/' between directory and name unless the directory is empty or already ends in '/' (the rule of `PathBuf::push` for a relative name) |
| BuildEnv.EnterVenv | build.rs:161-167 | VIRTUAL_ENV is set to the venv. PATH becomes `<venv>/bin:` followed by the previous PATH, and nothing else changes. It panics exactly when PATH is unset |
| BuildEnv.PipPath | build.rs:90-167 | pip sees `<venv>/bin:` in front of the last PATH printenv assigned, or else the inherited one. It panics exactly when an assignment is unquoted or no PATH is set |
| BuildEnv.LibraryProjectPath | build.rs:182-195 | it panics exactly when GPR_PROJECT_PATH is unset. Otherwise only that variable changes: it gains `:<langkit>/support:<gpr>`, or `::<langkit>/support:g:<gpr>` with an inherited `g` |
| BuildEnv.BindingProjectPath | build.rs:208-217 | without an inherited value nothing changes. With an inherited `g` it panics exactly when GPR_PROJECT_PATH is unset, and otherwise only that variable changes, gaining `:<gpr>:g` |
| BuildEnv.InheritedProjectPathIsSet | build.rs:185-188 | a `GPR_PROJECT_PATH` in the process environment survives the filter, the printenv assignments and the venv step. So with that value inherited, neither project-path step panics |
| BuildEnv.ProjectPathForBinding | build.rs:182-217 | without an inherited GPR_PROJECT_PATH the variable gains `:<langkit>/support:<gpr>`. With an inherited `g` it gains `::<langkit>/support:g:<gpr>:<gpr>:g`. It panics exactly when the variable is unset |

## Left out

- The foreign calls `gpr2cinit`, `gpr2cfinal` and `gpr2_request`, and the ownership of the answer string (`CString::from_raw`). They are the `exchange` function of a `Channel`. The integer the C dispatcher returns is ignored by the code and does not appear.
- `CString::new(request).unwrap()` is not modelled. The request is serialized JSON, which escapes NUL, so it cannot panic. `file.to_str().unwrap()` is not modelled either, because paths are strings here.
- serde_json's text parser is the `parse` function of a `Channel`. Several serde behaviours are also outside the model:
  - decoding a struct from a JSON array (the positional form);
  - duplicate object keys, because objects are maps;
  - fractional numbers.
- The payloads of the `Io`, `Cstring` and `Json` error variants are opaque. The `Display` messages of `Error` are left out.
- Binding.Load: its own contract states only the transport failure. The behaviour for every answer text that reads as an envelope is stated by `Binding.LoadAnswered`, and for text that does not by `Binding.LoadUndecodable`.
- Binding.GetAttribute: likewise, its own contract states only the transport failure. The behaviour for every answer text that reads as an envelope is stated by `Binding.GetAttributeAnswered`, and for text that does not by `Binding.GetAttributeUndecodable`.
- `initialize`/`finalize` are process-wide foreign calls with no logic of their own.
- The `Project` facade in src/lib.rs is a thin layer over file-system canonicalisation and the binding.
- The build script's I/O is left out:
  - the git checkouts (`checkout`);
  - command execution and its output (`call`, the `alr`/`python3`/`pip`/`make`/`gprbuild` runs, `cargo:` lines);
  - the `GPR2KBDIR=` make argument.
- The printenv output is a parameter. The ambient `GPR_PROJECT_PATH` is a parameter. The directories are parameters. In the build script the ambient value and the environment come from the same process environment, and `BuildEnv.InheritedProjectPathIsSet` states the consequence: with an inherited value, neither project-path step panics.
- `env::vars()` panics on a non-Unicode variable. This is not modelled, because strings are Unicode here.

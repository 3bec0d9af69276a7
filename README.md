# rust_bucket: error taxonomy and table create/read, modelled in Dafny

`rust_bucket` is an embedded, file-backed record store: every table is one file. This project
models two pieces of it.

- **The error taxonomy** (`src/errors.rs`, module `Errors` in `errors.dfy`). `Error` is a closed
  sum of five kinds: `Io`, `Serde`, `ParseInt`, `NoSuchTable(table)` and `NoSuchKey`. Three
  `From` conversions wrap a foreign error in the matching kind. `Display` puts a fixed prefix in
  front of a wrapped error's own message, or renders a fixed sentence around the table name, or
  renders a constant sentence. `cause` hands out the wrapped error for the three wrapping kinds
  only. The foreign errors (`io::Error`, `serde_json::Error`, `ParseIntError`, module `Foreign`)
  are opaque values. Each is known by the text its own `Display` renders plus an uninterpreted
  `detail` number. Beside `Display` stands `ReadMessage`, which reads a message back into its
  kind and payload text. The lemma `DisplayIsReadable` proves that reading always succeeds and
  returns what was rendered.
- **Table creation and reading** (`src/lib.rs`, module `Bucket` in `bucket.dfy`, with the line
  splitting in module `Lines` in `lines.dfy`). The file system is a `FileStore` object whose
  field `files` maps paths to file text.
  - `CreateTable` works like `create_table`: it places the table at `DbPath(table)`, which is
    `./db` joined with the name. If that path exists, it returns `Ok` and changes nothing.
    Otherwise it creates the file and writes the serialised value into it.
  - `ReadTable` works like `read_table`: it opens the path exactly as given, with no `./db`
    prefix. It splits the text into lines the way `BufRead::lines` does and concatenates them
    with no separator. The lemma `ConcatLines` proves this equals a character-by-character
    reference definition, `StripTerminators`: every `'\n'` is dropped, and so is every `'\r'`
    directly before a `'\n'`.

`src/lib.rs` does not use `src/errors.rs`. `create_table` returns `io::Result<()>`, and
`read_table` returns a plain `String` and panics on failure. The model keeps the two parts
separate in the same way.

Parameters stand for what the model does not compute:
- Serialisation (`serde_json::to_string`) is a function argument `serialize: T -> string`.
- The operating system's answers to `File::create` and `write_all` are a `WriteOutcome`
  argument: both succeed; `File::create` fails; or `write_all` fails after some characters
  reached the file. Because `write_all` succeeds once the whole buffer is written,
  `CreateTable` only accepts a failed write that wrote strictly less than the whole text.

The store is meant to keep each table as a JSON document with a record map and a `next_id`
counter, and reading a missing table is meant to fail with `NoSuchTable`. The two modelled
functions do not do that yet, and the model follows the code:
- `create_table` stores the serialised value itself. It does not wrap the value in a document
  with a `next_id` counter.
- `read_table` panics when the file is missing (here `None`). It does not return a
  `NoSuchTable` error, and it does not return the raw text.
- No counter, append, update, find or delete operation exists in these two files.

## Model

| member | source | states |
|---|---|---|
| `Errors.FromIo` | src/errors.rs:52-56 | converting an I/O error gives the `Io` kind wrapping exactly that error |
| `Errors.FromSerde` | src/errors.rs:58-62 | converting a serde error gives the `Serde` kind wrapping exactly that error |
| `Errors.FromParseInt` | src/errors.rs:64-68 | converting an integer-parse error gives the `ParseInt` kind wrapping exactly that error |
| `Errors.Display` | src/errors.rs:70-95 | `Io`, `Serde` and `ParseInt` messages are "Error performing IO: ", "Error (de)serializing: " or "Error parsing an integer: " followed by the inner message; the `NoSuchTable(t)` message is `Tried to open the table "` then `t` verbatim then `", which does not exist.`; the `NoSuchKey` message is the constant sentence |
| `Errors.GetCause` | src/errors.rs:100-108 | the cause is present exactly for `Io`, `Serde` and `ParseInt`, and is then the wrapped error itself; it is absent for `NoSuchTable` and `NoSuchKey` |
| `Errors.DisplayIsReadable` | src/errors.rs:72-93 | every rendered message can be read back into its kind and its payload text (inner message, table name, or nothing) |
| `Errors.DisplaySeparatesKinds` | src/errors.rs:72-93 | errors of different kinds never render the same message |
| `Errors.NoSuchTableNamesTable` | src/errors.rs:85-91 | two different table names never give the same `NoSuchTable` message |
| `Errors.DisplayShowsCause` | src/errors.rs:73-84 | for a wrapping kind, the message is the kind's prefix followed by the message of what `cause` returns |
| `Errors.CauseUndoesFrom` | src/errors.rs:52-68 | `cause` applied to a converted foreign error returns that same foreign error |
| `Errors.NoSuchKeyIsConstant` | src/errors.rs:92 | every `NoSuchKey` renders the same fixed sentence, which depends on no data |
| `Lines.NewlineIndex` | src/lib.rs:36 | the line that `read_line` reads ends at the first `'\n'`, or at the end of the text when there is none |
| `Lines.TrimCarriageReturn` | src/lib.rs:36 | a line loses at most one final character, and does so exactly when that character is `'\r'` |
| `Lines.Lines` | src/lib.rs:36 | no line yielded by `lines()` contains a `'\n'`, and there are never more lines than characters |
| `Lines.Concat` | src/lib.rs:36 | `collect()` adds no separator: the result is the first line followed directly by the concatenation of the rest, and it contains a `'\n'` exactly when some line does |
| `Lines.StripTerminators` | src/lib.rs:36 | the reference result contains no `'\n'`, is no longer than the text, and equals the text when the text has no `'\n'` |
| `Lines.ConcatLines` | src/lib.rs:36 | concatenating the lines of a text equals the text with every `'\n'` removed, and every `'\r'` standing directly before a `'\n'` removed too |
| `Lines.LinesOfUnlines` | src/lib.rs:36 | splitting lines that were each written with a terminating `'\n'` gives the same lines back, when no line ends in `'\r'` |
| `Bucket.Created` | src/lib.rs:22-28 | the store after a create: unchanged when the path exists; otherwise only `DbPath(table)` may be added, holding the whole text after a successful write, a prefix after a failed one (a strict prefix for an outcome the OS can give), and absent after a failed `File::create`; every other file keeps its text |
| `Bucket.FileStore.CreateTable` | src/lib.rs:19-29 | when `DbPath(table)` exists: returns `Ok` and the store is unchanged; when it is absent and both calls succeed: returns `Ok` and the path holds the serialised value; a failing `File::create` returns its error and changes nothing; a failing `write_all` returns its error and leaves a strict prefix of the text; no other path changes |
| `Bucket.FileStore.ReadTable` | src/lib.rs:33-37 | fails exactly when the path as given is absent; otherwise returns the file text with all line terminators removed, which contains no `'\n'`, and returns text without `'\n'` unchanged |
| `Bucket.DbPath` | src/lib.rs:22 | an absolute name replaces `./db` and is the path itself; a relative name is placed under `./db/`; the path ends with the name and is absolute exactly when the name is |
| `Bucket.DbPathInjective` | src/lib.rs:22 | distinct names give distinct path strings; files are identified by their path string |
| `Bucket.DbPathDiffersFromName` | src/lib.rs:22 | the path a relative table name is written to is not the name itself |
| `Bucket.CreateKeepsExisting` | src/lib.rs:22-23 | once the table's path exists, creating it again with any value changes nothing, so the first value written wins |
| `Bucket.CreateTwice` | src/lib.rs:22-28 | two creates of one table give the state of the first create alone, unless the first `File::create` failed; then they give the state of the second alone |
| `Bucket.ReadAfterCreate` | src/lib.rs:19-37 | after a successful create, reading the joined path returns the serialised text with its line terminators removed |
| `Bucket.ReadByAbsoluteNameFindsCreated` | src/lib.rs:22-34 | for an absolute name, reading the name passed to `create_table` finds the created file and returns its text without line terminators |
| `Bucket.ReadByNameMissesCreated` | src/lib.rs:22-34 | reading back the relative name that was passed to `create_table` does not find the file that call created |

## Left out

- The benchmark harness (`benches/main_benchmark.rs`): it measures time, and it calls operations that the two modelled files do not define.
- The internals and the own `Display` text of `io::Error`, `serde_json::Error` and `ParseIntError`. These foreign types are opaque: a message string plus an uninterpreted number.
- Errors.Display: a failing `Formatter` (the `?` after the first `write!`) is not modelled. Rendering always yields a string.
- Real JSON serialisation and the panic of its `unwrap` (src/lib.rs:20). Serialisation is a total function argument. So the model does not capture that a failing serialisation would panic even for a table that already exists.
- Bucket.FileStore.ReadTable: the only failure modelled is a missing file. Other `File::open` failures, UTF-8 decode failures inside `lines()`, and the panic texts of `expect` are left out. Files hold characters, not bytes.
- Bucket.DbPathInjective: files are identified by their path string. Rust compares paths by components, so names such as `a`, `./a` and `a/` join to one file there but stay distinct here.
- Bucket.FileStore.CreateTable: `exists()` is treated as "a file is stored at that path". Directories, permission errors (which make `exists()` false), and path normalisation (`./db//a` against `./db/a`) are left out. For a failed `write_all`, the written prefix is counted in characters, not bytes.
- `DbPath` follows Unix `Path::join` (an absolute name replaces `./db`). Windows prefixes are not modelled.
- The `sc` schema module (src/lib.rs:17) is not part of this model, and neither is the compiler feature and plugin attributes.
- The test at src/lib.rs:39-44 makes no assertion, so it states nothing to model.
- Concurrency: the store applies no locking, and the model is sequential.

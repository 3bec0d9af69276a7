/**
 * The create and read logic of the store (src/lib.rs), over a named-file store: a map from
 * path to file text. `create_table` writes a table once, under the `./db` root;
 * `read_table` opens the path it is given and returns the text with its line terminators removed.
 */
module Bucket {
  import opened Wrappers
  import opened Foreign
  import Lines

  /** The root every created table is placed under. */
  const DbRoot := "./db"

  /** A Unix path is absolute when it starts at the root directory. */
  predicate IsAbsolute(path: string)
  {
    |path| > 0 && path[0] == '/'
  }

  /**
   * `Path::new("./db").join(table)` on Unix: an absolute `table` replaces the root,
   * any other is appended after one separator.
   */
  function DbPath(table: string): (path: string)
    ensures IsAbsolute(table) ==> path == table
    ensures IsAbsolute(path) <==> IsAbsolute(table)
    ensures |table| <= |path| && path[|path| - |table|..] == table
    ensures !IsAbsolute(table) ==> DbRoot + "/" <= path && |path| == |DbRoot| + 1 + |table|
  {
    if IsAbsolute(table) then table else DbRoot + "/" + table
  }

  /** `io::Result<()>`. */
  datatype IoResult = Ok | Err(error: IoError)

  /**
   * What the operating system answers to the two calls of `create_table` that can fail:
   * `File::create` fails; or it succeeds and `write_all` fails after `written` characters
   * reached the file; or both succeed. `write_all` succeeds once the whole buffer is written,
   * so a failed write has written strictly less than the text (`PossibleFor`).
   */
  datatype WriteOutcome =
    | Written
    | CreateFailed(error: IoError)
    | WriteFailed(error: IoError, written: nat)

  /** The outcomes the operating system can give when `text` is written. */
  predicate PossibleFor(os: WriteOutcome, text: string)
  {
    os.WriteFailed? ==> os.written < |text|
  }

  function Min(a: nat, b: nat): nat
  {
    if a <= b then a else b
  }

  /** The store after `create_table(table, _)` with serialised text `text`, in terms of the store before. */
  function Created(files: map<string, string>, table: string, text: string, os: WriteOutcome): (after: map<string, string>)
    ensures DbPath(table) in files ==> after == files
    ensures after.Keys == if os.CreateFailed? then files.Keys else files.Keys + {DbPath(table)}
    ensures forall path :: path in files && path != DbPath(table) ==> after[path] == files[path]
    ensures DbPath(table) !in files && os.Written? ==> after[DbPath(table)] == text
    ensures DbPath(table) !in files && os.WriteFailed? ==> after[DbPath(table)] <= text
    ensures DbPath(table) !in files && os.WriteFailed? && PossibleFor(os, text) ==> after[DbPath(table)] < text
  {
    var path := DbPath(table);
    if path in files then files
    else
      match os
      case Written => files[path := text]
      case CreateFailed(_) => files
      case WriteFailed(_, n) => files[path := text[..Min(n, |text|)]]
  }

  /** The file system the store reads and writes, as a map from path to file text. */
  class FileStore {
    var files: map<string, string>

    constructor (initial: map<string, string>)
      ensures files == initial
    {
      files := initial;
    }

    /**
     * `create_table`: create-if-absent. An existing path is left alone and reported as success;
     * otherwise the serialised value is written at `DbPath(table)` and no other path changes.
     */
    method CreateTable<T>(table: string, t: T, serialize: T -> string, os: WriteOutcome) returns (r: IoResult)
      requires PossibleFor(os, serialize(t))
      modifies this
      ensures r.Ok? <==> DbPath(table) in old(files) || os.Written?
      ensures r.Err? ==> !os.Written? && r.error == os.error
      ensures DbPath(table) in old(files) ==> files == old(files)
      ensures DbPath(table) !in old(files) && os.Written? ==> files == old(files)[DbPath(table) := serialize(t)]
      ensures DbPath(table) !in old(files) && os.CreateFailed? ==> files == old(files)
      ensures DbPath(table) !in old(files) && os.WriteFailed? ==>
        DbPath(table) in files && files[DbPath(table)] < serialize(t)
      ensures forall path :: path != DbPath(table) ==>
        (path in files <==> path in old(files)) && (path in files ==> files[path] == old(files)[path])
      ensures files == Created(old(files), table, serialize(t), os)
    {
      var serialized := serialize(t);
      var dbTable := DbPath(table);
      if dbTable in files {
        return Ok;
      }
      if os.CreateFailed? {
        return Err(os.error);
      }
      // `File::create` leaves an empty file behind, which `write_all` then fills.
      files := files[dbTable := ""];
      if os.WriteFailed? {
        files := files[dbTable := serialized[..Min(os.written, |serialized|)]];
        return Err(os.error);
      }
      files := files[dbTable := serialized];
      r := Ok;
    }

    /**
     * `read_table`: the file at `table`, as given, with every line terminator removed.
     * `None` stands for the panic "Table does not exist!" when there is no such file.
     */
    function ReadTable(table: string): (text: Option<string>)
      reads this
      ensures text.Some? <==> table in files
      ensures text.Some? ==> text.value == Lines.StripTerminators(files[table])
      ensures text.Some? ==> '\n' !in text.value
      ensures text.Some? && '\n' !in files[table] ==> text.value == files[table]
    {
      if table in files then
        Lines.ConcatLines(files[table]);
        Some(Lines.Concat(Lines.Lines(files[table])))
      else None
    }
  }

  /** Two tables never share a path under the root. */
  lemma {:induction false} DbPathInjective(t1: string, t2: string)
    requires DbPath(t1) == DbPath(t2)
    ensures t1 == t2
  {
  }

  /** A relative table name is not the path `create_table` writes it to. */
  lemma {:induction false} DbPathDiffersFromName(table: string)
    requires !IsAbsolute(table)
    ensures DbPath(table) != table
  {
  }

  /** Create-if-absent: once a table's path exists, a later create changes nothing. */
  lemma {:induction false} CreateKeepsExisting(files: map<string, string>, table: string, text: string, os: WriteOutcome)
    requires DbPath(table) in files
    ensures Created(files, table, text, os) == files
  {
  }

  /**
   * Creating twice reaches the state of the first create alone unless the first
   * `File::create` failed, in which case it reaches the state of the second alone.
   */
  lemma {:induction false} CreateTwice(files: map<string, string>, table: string,
                                       text1: string, os1: WriteOutcome, text2: string, os2: WriteOutcome)
    ensures var once := Created(files, table, text1, os1);
      Created(once, table, text2, os2)
        == if DbPath(table) in files || !os1.CreateFailed? then once else Created(files, table, text2, os2)
  {
  }

  /** Reading the created path back yields the serialised text without its line terminators. */
  lemma {:induction false} ReadAfterCreate(store: FileStore, before: map<string, string>, table: string, text: string)
    requires DbPath(table) !in before
    requires store.files == Created(before, table, text, Written)
    ensures store.ReadTable(DbPath(table)) == Some(Lines.StripTerminators(text))
  {
  }

  /**
   * `read_table` does not add the root: reading the relative name that was passed to
   * `create_table` does not find the file that call created.
   */
  lemma {:induction false} ReadByNameMissesCreated(store: FileStore, before: map<string, string>,
                                                   table: string, text: string, os: WriteOutcome)
    requires !IsAbsolute(table) && table !in before
    requires store.files == Created(before, table, text, os)
    ensures store.ReadTable(table) == None
  {
  }

  /** An absolute name replaces the root, so reading that same name finds the created file. */
  lemma {:induction false} ReadByAbsoluteNameFindsCreated(store: FileStore, before: map<string, string>,
                                                          table: string, text: string)
    requires IsAbsolute(table) && table !in before
    requires store.files == Created(before, table, text, Written)
    ensures store.ReadTable(table) == Some(Lines.StripTerminators(text))
  {
  }
}

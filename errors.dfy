/**
 * The error taxonomy of the store (src/errors.rs): a closed sum of five kinds, the three
 * conversions that wrap a foreign error, the `Display` rendering and the `cause` accessor.
 */
module Errors {
  import opened Wrappers
  import opened Foreign

  /** Errors that can occur during store operations. */
  datatype Error =
    | Io(io: IoError)                // something went wrong while performing IO
    | Serde(serde: SerdeError)       // a table failed to (de)serialize
    | ParseInt(parse: ParseIntError) // the stored `next_id` failed to parse
    | NoSuchTable(table: string)     // the table to read does not exist
    | NoSuchKey                      // the key to extract does not exist

  /** What `cause` can hand out: a reference to one of the three wrapped foreign errors. */
  datatype Cause = IoCause(io: IoError) | SerdeCause(serde: SerdeError) | ParseIntCause(parse: ParseIntError)
  {
    /** The text the wrapped error's own `Display` renders. */
    function Message(): string
    {
      match this
      case IoCause(e) => e.message
      case SerdeCause(e) => e.message
      case ParseIntCause(e) => e.message
    }
  }

  /** The kinds of `Error`, without their payloads. */
  datatype Kind = IoKind | SerdeKind | ParseIntKind | NoSuchTableKind | NoSuchKeyKind

  function KindOf(e: Error): Kind
  {
    match e
    case Io(_) => IoKind
    case Serde(_) => SerdeKind
    case ParseInt(_) => ParseIntKind
    case NoSuchTable(_) => NoSuchTableKind
    case NoSuchKey => NoSuchKeyKind
  }

  /** The kinds that wrap a foreign error. */
  predicate Wraps(e: Error)
  {
    e.Io? || e.Serde? || e.ParseInt?
  }

  // The fixed texts of the `Display` rendering.
  const IoPrefix := "Error performing IO: "
  const SerdePrefix := "Error (de)serializing: "
  const ParseIntPrefix := "Error parsing an integer: "
  const TableOpening := "Tried to open the table \""
  const TableClosing := "\", which does not exist."
  const NoSuchKeyMessage := "Tried to retrieve a key which doesn't exist."

  /** `From<io::Error>`. */
  function FromIo(err: IoError): (e: Error)
    ensures e.Io? && e.io == err
  {
    Io(err)
  }

  /** `From<serde_json::Error>`. */
  function FromSerde(err: SerdeError): (e: Error)
    ensures e.Serde? && e.serde == err
  {
    Serde(err)
  }

  /** `From<ParseIntError>`. */
  function FromParseInt(err: ParseIntError): (e: Error)
    ensures e.ParseInt? && e.parse == err
  {
    ParseInt(err)
  }

  /** `Display::fmt`: a kind-specific prefix or sentence around, or instead of, the payload. */
  function Display(e: Error): (msg: string)
    ensures e.Io? ==> IoPrefix <= msg && msg[|IoPrefix|..] == e.io.message
    ensures e.Serde? ==> SerdePrefix <= msg && msg[|SerdePrefix|..] == e.serde.message
    ensures e.ParseInt? ==> ParseIntPrefix <= msg && msg[|ParseIntPrefix|..] == e.parse.message
    ensures e.NoSuchTable? ==>
      && |msg| == |TableOpening| + |e.table| + |TableClosing|
      && TableOpening <= msg
      && msg[|TableOpening|..|TableOpening| + |e.table|] == e.table
      && msg[|TableOpening| + |e.table|..] == TableClosing
    ensures e.NoSuchKey? ==> msg == NoSuchKeyMessage
  {
    match e
    case Io(err) => IoPrefix + err.message
    case Serde(err) => SerdePrefix + err.message
    case ParseInt(err) => ParseIntPrefix + err.message
    case NoSuchTable(table) => TableOpening + table + TableClosing
    case NoSuchKey => NoSuchKeyMessage
  }

  /** `std::error::Error::cause`: the wrapped error for the three wrapping kinds, nothing otherwise. */
  function GetCause(e: Error): (c: Option<Cause>)
    ensures c.Some? <==> Wraps(e)
    ensures e.Io? ==> c == Some(IoCause(e.io))
    ensures e.Serde? ==> c == Some(SerdeCause(e.serde))
    ensures e.ParseInt? ==> c == Some(ParseIntCause(e.parse))
  {
    match e
    case Io(err) => Some(IoCause(err))
    case Serde(err) => Some(SerdeCause(err))
    case ParseInt(err) => Some(ParseIntCause(err))
    case NoSuchTable(_) => None
    case NoSuchKey => None
  }

  /*
   * A reading of a rendered message back into its kind and its payload text; it is the
   * partner of `Display` and shows that the rendering loses nothing but the foreign
   * errors' uninterpreted details.
   */

  datatype Diagnostic = Diagnostic(kind: Kind, detail: string)

  /** The payload text `Display` shows: the inner message, the table name, or nothing. */
  function DetailOf(e: Error): string
  {
    match e
    case Io(err) => err.message
    case Serde(err) => err.message
    case ParseInt(err) => err.message
    case NoSuchTable(table) => table
    case NoSuchKey => ""
  }

  /** The fixed text `Display` puts before the inner message of a wrapping kind. */
  function PrefixOf(k: Kind): string
  {
    match k
    case IoKind => IoPrefix
    case SerdeKind => SerdePrefix
    case ParseIntKind => ParseIntPrefix
    case NoSuchTableKind => TableOpening
    case NoSuchKeyKind => NoSuchKeyMessage
  }

  function ReadMessage(msg: string): Option<Diagnostic>
  {
    if IoPrefix <= msg then Some(Diagnostic(IoKind, msg[|IoPrefix|..]))
    else if SerdePrefix <= msg then Some(Diagnostic(SerdeKind, msg[|SerdePrefix|..]))
    else if ParseIntPrefix <= msg then Some(Diagnostic(ParseIntKind, msg[|ParseIntPrefix|..]))
    else if msg == NoSuchKeyMessage then Some(Diagnostic(NoSuchKeyKind, ""))
    else if |TableOpening| + |TableClosing| <= |msg| && TableOpening <= msg
      && msg[|msg| - |TableClosing|..] == TableClosing
    then Some(Diagnostic(NoSuchTableKind, msg[|TableOpening|..|msg| - |TableClosing|]))
    else None
  }

  /** Every message names its kind and carries its payload verbatim. */
  lemma {:induction false} DisplayIsReadable(e: Error)
    ensures ReadMessage(Display(e)) == Some(Diagnostic(KindOf(e), DetailOf(e)))
  {
    var msg := Display(e);
    match e
    case Io(_) =>
    case Serde(_) =>
      assert msg[0] == 'E' && msg[6] == '(';
      assert !(IoPrefix <= msg) by { assert IoPrefix[6] == 'p'; }
    case ParseInt(_) =>
      assert msg[6] == 'p' && msg[7] == 'a';
      assert !(IoPrefix <= msg) by { assert IoPrefix[7] == 'e'; }
      assert !(SerdePrefix <= msg) by { assert SerdePrefix[6] == '('; }
    case NoSuchTable(t) =>
      assert msg[0] == 'T' && msg[9] == 'o';
      assert !(IoPrefix <= msg) by { assert IoPrefix[0] == 'E'; }
      assert !(SerdePrefix <= msg) by { assert SerdePrefix[0] == 'E'; }
      assert !(ParseIntPrefix <= msg) by { assert ParseIntPrefix[0] == 'E'; }
      assert msg != NoSuchKeyMessage by { assert NoSuchKeyMessage[9] == 'r'; }
      assert msg[|msg| - |TableClosing|..] == TableClosing;
      assert msg[|TableOpening|..|msg| - |TableClosing|] == t;
    case NoSuchKey =>
      assert msg == NoSuchKeyMessage;
      assert !(IoPrefix <= msg) by { assert IoPrefix[0] == 'E'; }
      assert !(SerdePrefix <= msg) by { assert SerdePrefix[0] == 'E'; }
      assert !(ParseIntPrefix <= msg) by { assert ParseIntPrefix[0] == 'E'; }
  }

  /** Errors of different kinds never render the same message. */
  lemma {:induction false} DisplaySeparatesKinds(e1: Error, e2: Error)
    requires KindOf(e1) != KindOf(e2)
    ensures Display(e1) != Display(e2)
  {
    DisplayIsReadable(e1);
    DisplayIsReadable(e2);
  }

  /** The `NoSuchTable` message names its table: two tables never share a message. */
  lemma {:induction false} NoSuchTableNamesTable(t1: string, t2: string)
    requires Display(NoSuchTable(t1)) == Display(NoSuchTable(t2))
    ensures t1 == t2
  {
  }

  /** For the wrapping kinds, the message is the kind's prefix followed by what `cause` exposes. */
  lemma {:induction false} DisplayShowsCause(e: Error)
    requires Wraps(e)
    ensures GetCause(e).Some?
    ensures Display(e) == PrefixOf(KindOf(e)) + GetCause(e).value.Message()
  {
  }

  /** Wrapping a foreign error and asking for the cause gives back exactly that error. */
  lemma {:induction false} CauseUndoesFrom(io: IoError, serde: SerdeError, parse: ParseIntError)
    ensures GetCause(FromIo(io)) == Some(IoCause(io))
    ensures GetCause(FromSerde(serde)) == Some(SerdeCause(serde))
    ensures GetCause(FromParseInt(parse)) == Some(ParseIntCause(parse))
  {
  }

  /** The `NoSuchKey` message depends on no data at all. */
  lemma {:induction false} NoSuchKeyIsConstant(e1: Error, e2: Error)
    requires e1.NoSuchKey? && e2.NoSuchKey?
    ensures Display(e1) == Display(e2) == NoSuchKeyMessage
  {
  }
}

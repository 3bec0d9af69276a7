/**
 * The foreign error values that the core wraps: `std::io::Error`, `serde_json::Error` and
 * `std::num::ParseIntError`. Their internals belong to other crates, so the model keeps them
 * opaque: each is known only by the text its own `Display` renders (`message`) and by an
 * uninterpreted `detail` that stands for everything else the value carries (an OS error code,
 * a line and column, a parse-failure kind) and that the core never looks at.
 */
module Foreign {
  datatype IoError = IoError(detail: nat, message: string)
  datatype SerdeError = SerdeError(detail: nat, message: string)
  datatype ParseIntError = ParseIntError(detail: nat, message: string)
}

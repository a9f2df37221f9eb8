/** Names and the optional-value wrapper shared by every module of the model. */
module Common {

  /** The conventional Some/None wrapper; None also stands for Python's None. */
  datatype Option<T> = None | Some(value: T)

  /** A node identifier or a data name (Python strings). */
  type Name = string

  /** A data value as carried in DATA messages. */
  type Value = string

  /** A transport address written "host:port". */
  type Addr = string
}

/** The optional value used wherever the bot's Python code returns a value or `None`. */
module Wrappers {

  datatype Option<+T> = None | Some(value: T)
}

/** The optional value used wherever the bot's Python code returns `None`
    or a dictionary lookup can miss. */
module Wrappers {

  datatype Option<+T> = None | Some(value: T)
}

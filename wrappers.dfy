/** The optional value used for `json.loads` results, extracted payloads and match indices. */
module Wrappers {

  datatype Option<+T> = None | Some(value: T)
}

/** Values shared by every part of the responder: JavaScript's null/undefined
    as `Option`, and a persisted JSON document as `Doc`. */
module Documents {

  datatype Option<T> = None | Some(value: T)

  /** A JSON document on disk as a handler sees it when it reads it:
      `Missing` when the file does not exist, `Unreadable` when reading or
      `JSON.parse` throws or the parsed value has the wrong shape. */
  datatype Doc<T> = Missing | Unreadable | Loaded(value: T)

  /** What the handlers start from: the parsed value, or the empty default
      they use when the file does not exist. */
  function ValueOr<T>(d: Doc<T>, empty: T): T
    requires !d.Unreadable?
  {
    if d.Loaded? then d.value else empty
  }

  /** JavaScript truthiness of a string that may be null: null and "" are falsy. */
  predicate Truthy(s: Option<string>) {
    s.Some? && s.value != ""
  }
}

/** What the model takes as given from the outside world: the outcome of a
    call to the generative-AI provider and of sending a reply. */
module Outcomes {

  /** The provider's text, or a thrown error of any kind. */
  datatype AiOutcome = Ok(text: string) | Fail

  /** The send resolved, or it threw an error with this message. */
  datatype SendOutcome = Delivered | Threw(message: string)
}

/** JavaScript and HTTP vocabulary shared by the modules of this model. */
module Web {

  /** A value that may be missing (`null` or `undefined` in JavaScript). */
  datatype Option<+T> = None | Some(value: T)

  /** How a promise settles: fulfilled with a value, or rejected with a reason
      (an `await` of a rejected promise throws that reason). */
  datatype Settled<+T, +E> = Fulfilled(value: T) | Rejected(reason: E)

  /** The HTTP methods the client issues. */
  datatype Verb = GET | POST | PUT | DELETE
}

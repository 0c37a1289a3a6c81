/** A signed-in user. The user interface declaration is not part of this
    model, so a user is known only by an identity; what matters to the stores
    is whether there is one. */
module Users {
  datatype User = User(id: nat)

  /** The outcome of an awaited API call: the value it resolved to, or an
      exception. */
  datatype ApiCall<T> = Returned(value: T) | Threw
}

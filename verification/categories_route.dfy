/**
 * `POST /api/categories`: validates the `name` of the JSON body, hands the
 * trimmed name to the category store and turns the store's answer into an
 * HTTP status.
 */
module CategoriesRoute {
  import opened Wrappers
  import opened Strings

  /**
   * The JSON value of `name`: `Falsy` stands for a missing key and every
   * falsy non-string (null, false, 0); `OtherTruthy` for a truthy value that
   * is not a string (a number, an object, an array, true).
   */
  datatype NameValue = Falsy | Str(s: string) | OtherTruthy

  /**
   * The request body. `Malformed` stands for a body that is not JSON and also
   * for the JSON `null`, whose destructuring throws as well. `Json(name)` is
   * any other JSON value with its `name` property; a number, string or array
   * body has none, so it is `Json(Falsy)`.
   */
  datatype Body = Malformed | Json(name: NameValue)

  /** The record the store creates. */
  datatype Record = Record(id: string, name: string)

  /** The store's answer to `create`, if it is asked. */
  datatype StoreResult = Stored(record: Record) | StoreFailed

  datatype ResponseBody = ErrorMessage(error: string) | Created(record: Record)

  /**
   * How the handler ends: a response it builds, or an exception that leaves
   * it (the body is not JSON, or `name.trim` is not a function).
   */
  datatype Reply = Respond(status: int, body: ResponseBody) | Thrown

  /** One request handled: the name passed to the store, if the store was called, and the reply. */
  datatype Handled = Handled(stored: Option<string>, reply: Reply)

  const NameRequired := "Category name is required"
  const AddFailed := "Failed to add category"

  /** The name is missing, empty or whitespace only. */
  predicate Blank(name: NameValue)
    ensures Blank(name) <==> name.Falsy? || (name.Str? && (name.s == "" || Trim(name.s) == ""))
  {
    name.Falsy? || (name.Str? && AllSpace(name.s))
  }

  /** The POST handler, with the store's answer `store` given as an input. */
  function Post(body: Body, store: StoreResult): (h: Handled)
    ensures body.Json? && Blank(body.name) <==> h.reply == Respond(400, ErrorMessage(NameRequired))
    ensures h.stored.Some? <==> body.Json? && body.name.Str? && !AllSpace(body.name.s)
    ensures h.stored.Some? ==> h.stored.value == Trim(body.name.s)
    ensures h.stored.Some? && store.Stored? ==> h.reply == Respond(201, Created(store.record))
    ensures h.stored.Some? && store.StoreFailed? ==> h.reply == Respond(500, ErrorMessage(AddFailed))
    ensures h.reply.Thrown? <==> body.Malformed? || body.name.OtherTruthy?
  {
    match body
    case Malformed => Handled(None, Thrown)
    case Json(name) =>
      match name
      case Falsy => Handled(None, Respond(400, ErrorMessage(NameRequired)))
      case OtherTruthy => Handled(None, Thrown)
      case Str(s) =>
        if s == "" || Trim(s) == "" then Handled(None, Respond(400, ErrorMessage(NameRequired)))
        else
          var reply := match store
            case Stored(record) => Respond(201, Created(record))
            case StoreFailed => Respond(500, ErrorMessage(AddFailed));
          Handled(Some(Trim(s)), reply)
  }

  /** The name handed to the store is non-empty and has no whitespace at either end. */
  lemma StoredNameTrimmed(body: Body, store: StoreResult)
    requires Post(body, store).stored.Some?
    ensures var n := Post(body, store).stored.value;
      n != "" && !IsSpace(n[0]) && !IsSpace(n[|n| - 1]) && Trim(n) == n
  {
    TrimIdempotent(body.name.s);
  }

  /** When the store is not called its answer cannot matter. */
  lemma StoreUnusedWhenNotCalled(body: Body, a: StoreResult, b: StoreResult)
    requires Post(body, a).stored.None?
    ensures Post(body, a) == Post(body, b)
  {
  }

  /** A body whose name is only spaces gets 400 and creates nothing. */
  lemma SpacesOnlyRejected()
    ensures forall store :: Post(Json(Str("  ")), store) == Handled(None, Respond(400, ErrorMessage(NameRequired)))
  {
    assert AllSpace("  ");
  }
}

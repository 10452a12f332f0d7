/**
 * The exceptions that api/orm.py raises or lets escape. JsonSchemaException
 * and NotFound are the ones the data-access layer raises on purpose, for bad
 * input; ValueError, OverflowError and KeyError escape it uncaught. Which
 * HTTP status each becomes is decided by the controllers, which are not part
 * of this model.
 */
module Errors {

  /** Why a JsonSchemaException was raised. */
  datatype SchemaReason =
    | BadImport          // `for_imp` rejected the payload
    | BadCitizen         // `for_crt` rejected a citizen
    | BadPatch           // `for_upd` rejected the update fields
    | NotACalendarDate   // `date(yyyy, mm, dd)` raised ValueError
    | DuplicateIds       // two citizens of one import share a citizen_id
    | NotBidirectional   // A lists B but B does not list A
    | UnknownRelative    // an update adds or removes an id outside the import

  /** What NotFound says is missing. */
  datatype Missing = NoSuchImport | NoSuchCitizen

  /** Where an uncaught ValueError comes from. */
  datatype ValueCause =
    | MalformedDate      // the text is not three integers separated by '.'
    | NotInList          // `list.remove` of an id the list does not hold

  datatype Error =
    | SchemaError(reason: SchemaReason)
    | NotFound(missing: Missing)
    | ValueError(cause: ValueCause)
    | OverflowError      // a date component does not fit a C int
    | KeyError(key: int) // a relative id that is not a citizen of the import
}

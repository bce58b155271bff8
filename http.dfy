/** The replies the handlers send: a status code with data, or a status code with the reason for refusing. */
module Http {

  import opened Wrappers
  import opened AppointmentSchema

  /** JavaScript truthiness of an optional text: present and not empty. */
  predicate Truthy(s: Option<string>) {
    s.Some? && s.value != ""
  }

  /** The request-body fields an express-validator chain checks. */
  datatype BodyField = DoctorIdField | DateField | TimeField | SymptomsField | StatusField

  /** Why a request was refused; each handler maps these to its own status codes. */
  datatype Reason =
    | ValidationFailed(fields: set<BodyField>)
    | MissingFields
    | BadTimeFormat
    | BadDateFormat
    | PastDate
    | DoctorNotFound
    | SlotTaken
    | SchemaRejected(paths: set<Path>)
    | BadIdFormat
    | AppointmentNotFound
    | NotAuthorized
    | NoStatus
    | BadStatus
    | AlreadyClosed
    | NotPending
    | MissingAttachment
    | MissingRecipient
    | ServerError

  datatype Reply<T> = Ok(code: nat, data: T) | Err(code: nat, reason: Reason)
}

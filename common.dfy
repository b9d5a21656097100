/** Values shared by the models: optional values, results, and the acting principal. */
module Common {

  datatype Option<+T> = None | Some(value: T)

  datatype Result<+T, +E> = Ok(value: T) | Err(error: E)

  /** A user's internal id. Authentication is outside the model: the principal is an input. */
  type UserId = nat

  /** The user schema's role enum: "user", "admin", "super-admin". */
  datatype Role = Customer | Admin | SuperAdmin

  /** The authenticated caller (`req.user`) as far as the core needs it. */
  datatype Principal = Principal(id: UserId, role: Role)
}

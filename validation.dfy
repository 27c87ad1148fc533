/** The request schemas (Zod objects) of the DAO, the user controller and the auth
    controller. Parsing a schema either passes or throws a `ZodError` that lists the
    message of every failed check, in the order of the schema's keys. */
module Validation {
  import opened Common

  const NAME_TOO_SHORT := "Nome deve ter pelo menos 3 caracteres"
  const INVALID_EMAIL := "Email inválido"
  const PASSWORD_TOO_SHORT := "Senha deve ter pelo menos 6 caracteres"
  const CURRENT_PASSWORD_REQUIRED := "Senha atual é obrigatória"
  const NEW_PASSWORD_TOO_SHORT := "Nova senha deve ter pelo menos 6 caracteres"
  const PASSWORD_REQUIRED := "Senha é obrigatória"

  /** Stand-in for Zod's e-mail pattern: some text, an '@', some more text. */
  predicate IsEmail(s: string) {
    exists i | 0 < i < |s| - 1 :: s[i] == '@'
  }

  /** The message of one `z.string().min(n, message)` check, if it fails. */
  function MinLength(s: string, n: nat, message: string): seq<string> {
    if |s| < n then [message] else []
  }

  function EmailCheck(s: string): seq<string> {
    if IsEmail(s) then [] else [INVALID_EMAIL]
  }

  /** `CreateUserDataSchema` / `CreateUserRequestSchema`: name of at least 3
      characters, a valid e-mail, a password of at least 6 characters. */
  function CreateIssues(name: string, email: string, password: string): (r: seq<string>)
    ensures r == [] <==> |name| >= 3 && IsEmail(email) && |password| >= 6
    ensures NAME_TOO_SHORT in r <==> |name| < 3
    ensures INVALID_EMAIL in r <==> !IsEmail(email)
    ensures PASSWORD_TOO_SHORT in r <==> |password| < 6
  {
    MinLength(name, 3, NAME_TOO_SHORT) + EmailCheck(email) + MinLength(password, 6, PASSWORD_TOO_SHORT)
  }

  /** An optional field is checked only when it is present. */
  function Optional(field: Option<string>, check: string -> seq<string>): seq<string> {
    match field
    case None => []
    case Some(s) => check(s)
  }

  /** `UpdateUserDataSchema` / `UpdateUserRequestSchema`: the same checks as for
      creation, each applied only to a field that is present. */
  function UpdateIssues(name: Option<string>, email: Option<string>, password: Option<string>): (r: seq<string>)
    ensures r == [] <==>
      && (name.Some? ==> |name.value| >= 3)
      && (email.Some? ==> IsEmail(email.value))
      && (password.Some? ==> |password.value| >= 6)
    ensures name.None? && email.None? && password.None? ==> r == []
  {
    Optional(name, s => MinLength(s, 3, NAME_TOO_SHORT))
    + Optional(email, EmailCheck)
    + Optional(password, s => MinLength(s, 6, PASSWORD_TOO_SHORT))
  }

  /** `ChangePasswordRequestSchema`: a non-empty current password and a new
      password of at least 6 characters. */
  function ChangePasswordIssues(currentPassword: string, newPassword: string): (r: seq<string>)
    ensures r == [] <==> |currentPassword| >= 1 && |newPassword| >= 6
    ensures CURRENT_PASSWORD_REQUIRED in r <==> currentPassword == []
  {
    MinLength(currentPassword, 1, CURRENT_PASSWORD_REQUIRED) + MinLength(newPassword, 6, NEW_PASSWORD_TOO_SHORT)
  }

  /** `LoginRequestSchema`: a valid e-mail and a non-empty password. */
  function LoginIssues(email: string, password: string): (r: seq<string>)
    ensures r == [] <==> IsEmail(email) && password != []
  {
    EmailCheck(email) + MinLength(password, 1, PASSWORD_REQUIRED)
  }
}

/** The registration form's checks before the account request is sent. */
module Register {
  import opened Common
  import opened UserModel

  datatype Submit = FormError(message: string) | SendRegister(username: string, email: string, password: string)

  /** handleSubmit: any empty field, then a confirmation that differs, then a password under six
      characters stops the form with its message; otherwise the three values are sent as
      typed. */
  function HandleSubmit(username: string, email: string, password: string, confirm: string): (r: Submit)
    ensures r.FormError? && r.message == "Please fill in all fields" <==>
      username == "" || email == "" || password == "" || confirm == ""
    ensures r.FormError? && r.message == "Passwords do not match" <==>
      username != "" && email != "" && password != "" && confirm != "" && password != confirm
    ensures r.FormError? && r.message == "Password must be at least 6 characters long" <==>
      username != "" && email != "" && password != "" && password == confirm && |password| < 6
    ensures r.SendRegister? <==>
      username != "" && email != "" && password == confirm && |password| >= 6
    ensures r.SendRegister? ==> r == SendRegister(username, email, password)
  {
    if username == "" || email == "" || password == "" || confirm == "" then FormError("Please fill in all fields")
    else if password != confirm then FormError("Passwords do not match")
    else if |password| < 6 then FormError("Password must be at least 6 characters long")
    else SendRegister(username, email, password)
  }

  /** The form's minimum is six characters but the user schema's is eight: a six- or
      seven-character password passes the form, and the account it sends is refused. */
  lemma FormWeakerThanSchema(username: string, email: string, password: string)
    requires username != "" && email != "" && 6 <= |password| < 8
    ensures HandleSubmit(username, email, password, password).SendRegister?
    ensures PasswordError(password).Some?
    ensures CreateUser(UserInput(username, email, password, None, None, None)).UserRejected?
  {
  }

  /** Whatever the form sends carries a password of at least six characters and a non-empty
      username and email. */
  lemma SentValuesAreFilled(username: string, email: string, password: string, confirm: string)
    requires HandleSubmit(username, email, password, confirm).SendRegister?
    ensures |HandleSubmit(username, email, password, confirm).password| >= 6
    ensures HandleSubmit(username, email, password, confirm).username != ""
    ensures HandleSubmit(username, email, password, confirm).email != ""
  {
  }
}

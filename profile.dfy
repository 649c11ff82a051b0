/**
 * The profile page: the account summary, the button that opens and closes the
 * change-password form, the form's schema, and what a submission sends.
 */
module Profile {
  import opened Wrappers
  import opened Http
  import opened Toasts
  import Schema

  /** The three fields of the change-password form. */
  datatype PasswordForm = PasswordForm(currentPassword: string, newPassword: string, confirmPassword: string)

  const EmptyForm: PasswordForm := PasswordForm("", "", "")

  /** The body posted to /api/users/change-password: the confirmation is not part of it. */
  datatype ChangePasswordRequest = ChangePasswordRequest(currentPassword: string, newPassword: string)

  const CurrentRequired: string := "La contraseña actual es requerida"
  const NewTooShort: string := "La nueva contraseña debe tener al menos 6 caracteres"
  const Mismatch: string := "Las contraseñas no coinciden"

  /**
   * `changePasswordSchema`: the current password must be non-empty, the new one
   * at least 6 characters, and the confirmation equal to the new one, reported
   * on the confirmation field. The length failures do not stop the equality
   * refinement from running, so up to three issues are reported together.
   */
  function FormIssues(f: PasswordForm): (r: seq<Schema.Issue>)
    ensures Schema.Issue("currentPassword", CurrentRequired) in r <==> |f.currentPassword| < 1
    ensures Schema.Issue("newPassword", NewTooShort) in r <==> |f.newPassword| < 6
    ensures Schema.Issue("confirmPassword", Mismatch) in r <==> f.newPassword != f.confirmPassword
    ensures r == [] <==> |f.currentPassword| >= 1 && |f.newPassword| >= 6 && f.newPassword == f.confirmPassword
    ensures |r| <= 3
  {
    (if |f.currentPassword| < 1 then [Schema.Issue("currentPassword", CurrentRequired)] else [])
    + (if |f.newPassword| < 6 then [Schema.Issue("newPassword", NewTooShort)] else [])
    + (if f.newPassword != f.confirmPassword then [Schema.Issue("confirmPassword", Mismatch)] else [])
  }

  /** What `mutationFn` sends for a form: the current and the new password, nothing else. */
  function RequestFor(f: PasswordForm): (r: ChangePasswordRequest)
    ensures r.currentPassword == f.currentPassword && r.newPassword == f.newPassword
  {
    ChangePasswordRequest(f.currentPassword, f.newPassword)
  }

  /** Two forms that differ only in the confirmation send the same request. */
  lemma RequestOmitsConfirmation(f: PasswordForm, confirmation: string)
    ensures RequestFor(f.(confirmPassword := confirmation)) == RequestFor(f)
  {
  }

  /** What the page shows for a signed-in user. */
  datatype ProfileView = ProfileView(username: string, email: string, role: string,
                                     toggleLabel: string, showsForm: bool)

  /** The page: nothing without a user; the role reads "Administrador" only for administrators. */
  function Render(user: Option<PublicUser>, isChangingPassword: bool): (r: Option<ProfileView>)
    ensures r.None? <==> user.None?
    ensures r.Some? ==>
      && r.value.username == user.value.username && r.value.email == user.value.email
      && (r.value.role == "Administrador" <==> user.value.isAdmin == Some(true))
      && (r.value.role != "Administrador" ==> r.value.role == "Usuario")
      && (r.value.showsForm <==> isChangingPassword)
      && r.value.toggleLabel == (if isChangingPassword then "Cancelar" else "Cambiar Contraseña")
  {
    match user
    case None => None
    case Some(u) =>
      Some(ProfileView(u.username, u.email,
                       if u.isAdmin == Some(true) then "Administrador" else "Usuario",
                       if isChangingPassword then "Cancelar" else "Cambiar Contraseña",
                       isChangingPassword))
  }

  /** The page's state: whether the form is open and what has been typed into it. */
  class ProfilePage {
    var isChangingPassword: bool
    var form: PasswordForm

    constructor ()
      ensures !isChangingPassword && form == EmptyForm
    {
      isChangingPassword := false;
      form := EmptyForm;
    }

    /** The toggle button: opens a closed form and closes an open one. */
    method Toggle()
      modifies this
      ensures isChangingPassword == !old(isChangingPassword) && form == old(form)
    {
      isChangingPassword := !isChangingPassword;
    }

    /** Typing into the form. */
    method Edit(f: PasswordForm)
      modifies this
      ensures form == f && isChangingPassword == old(isChangingPassword)
    {
      form := f;
    }

    /**
     * `form.handleSubmit`: the schema's issues are shown and nothing is sent, or
     * there are none and the request for the form is sent.
     */
    method Submit() returns (issues: seq<Schema.Issue>, request: Option<ChangePasswordRequest>)
      requires isChangingPassword
      ensures issues == FormIssues(form)
      ensures request.Some? <==> issues == []
      ensures request.Some? ==> request.value == RequestFor(form)
    {
      issues := FormIssues(form);
      request := if issues == [] then Some(RequestFor(form)) else None;
    }

    /** `onSuccess`: announce it, close the form and clear its fields. */
    method OnSuccess() returns (toast: Toast)
      modifies this
      ensures toast == Toast("Contraseña actualizada", "Tu contraseña ha sido actualizada exitosamente.", false)
      ensures !isChangingPassword && form == EmptyForm
    {
      toast := Toast("Contraseña actualizada", "Tu contraseña ha sido actualizada exitosamente.", false);
      isChangingPassword := false;
      form := EmptyForm;
    }

    /** `onError`: the server's message; the form stays open with its fields. */
    method OnError(message: string) returns (toast: Toast)
      ensures toast == Toast("Error al actualizar la contraseña", message, true)
    {
      toast := Toast("Error al actualizar la contraseña", message, true);
    }
  }
}

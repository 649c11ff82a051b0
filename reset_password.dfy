/**
 * The reset-password page: without a `token` in its URL it shows an
 * invalid-link card; otherwise its form checks the new password before
 * posting it with the token, and tracks the request with `isLoading`.
 */
module ResetPassword {
  import opened Wrappers
  import opened Toasts

  /** The two views of the page. */
  datatype View = InvalidLink | ResetForm

  /** The body posted to /api/reset-password. */
  datatype ResetRequest = ResetRequest(token: string, password: string)

  const MinLength: nat := 6
  const TooShort: string := "La contraseña debe tener al menos 6 caracteres"
  const Mismatch: string := "Las contraseñas no coinciden"

  /** The page a URL leads to: the token must be present and non-empty. */
  function ViewFor(token: Option<string>): (r: View)
    ensures r == ResetForm <==> token.Some? && token.value != ""
  {
    if token.None? || token.value == "" then InvalidLink else ResetForm
  }

  /**
   * The checks of `handleSubmit`, in order: the length first, so a short
   * password is reported as short even when the confirmation differs; then the
   * confirmation. `None` means the input is accepted.
   */
  function CheckInput(password: string, confirmPassword: string): (r: Option<string>)
    ensures r.None? <==> |password| >= MinLength && password == confirmPassword
    ensures |password| < MinLength ==> r == Some(TooShort)
    ensures |password| >= MinLength && password != confirmPassword ==> r == Some(Mismatch)
  {
    if |password| < MinLength then Some(TooShort)
    else if password != confirmPassword then Some(Mismatch)
    else None
  }

  class ResetPasswordPage {
    /** The `token` query parameter. */
    const token: Option<string>
    var password: string
    var confirmPassword: string
    var isLoading: bool

    constructor (token: Option<string>)
      ensures this.token == token && password == "" && confirmPassword == "" && !isLoading
    {
      this.token := token;
      password := "";
      confirmPassword := "";
      isLoading := false;
    }

    function View(): View
      reads this
    {
      ViewFor(token)
    }

    /** The inputs' `onChange`. */
    method Edit(password: string, confirmPassword: string)
      modifies this
      ensures this.password == password && this.confirmPassword == confirmPassword
      ensures isLoading == old(isLoading)
    {
      this.password := password;
      this.confirmPassword := confirmPassword;
    }

    /**
     * `handleSubmit` up to the request: rejected input raises an error toast,
     * sends nothing and leaves `isLoading` alone; accepted input sets
     * `isLoading` and sends exactly the token and the password.
     */
    method BeginSubmit() returns (toast: Option<Toast>, request: Option<ResetRequest>)
      requires View() == ResetForm
      modifies this
      ensures password == old(password) && confirmPassword == old(confirmPassword)
      ensures CheckInput(password, confirmPassword).Some? ==>
        toast == Some(Toast("Error", CheckInput(password, confirmPassword).value, true))
        && request == None && isLoading == old(isLoading)
      ensures CheckInput(password, confirmPassword).None? ==>
        toast == None && request == Some(ResetRequest(token.value, password)) && isLoading
    {
      var problem := CheckInput(password, confirmPassword);
      if problem.Some? {
        toast := Some(Toast("Error", problem.value, true));
        request := None;
        return;
      }
      isLoading := true;
      toast := None;
      request := Some(ResetRequest(token.value, password));
    }

    /**
     * The rest of `handleSubmit` once the request settles: success announces it
     * and goes to the login page, failure explains the link may have expired;
     * either way `isLoading` ends false.
     */
    method FinishSubmit(succeeded: bool) returns (toast: Toast, navigateTo: Option<string>)
      modifies this
      ensures !isLoading
      ensures password == old(password) && confirmPassword == old(confirmPassword)
      ensures succeeded ==>
        toast == Toast("¡Éxito!", "Tu contraseña ha sido actualizada correctamente", false)
        && navigateTo == Some("/auth")
      ensures !succeeded ==>
        toast == Toast("Error", "No se pudo restablecer la contraseña. El enlace puede haber expirado.", true)
        && navigateTo == None
    {
      if succeeded {
        toast := Toast("¡Éxito!", "Tu contraseña ha sido actualizada correctamente", false);
        navigateTo := Some("/auth");
      } else {
        toast := Toast("Error", "No se pudo restablecer la contraseña. El enlace puede haber expirado.", true);
        navigateTo := None;
      }
      isLoading := false;
    }

    /**
     * The whole of `handleSubmit`, given whether the request would succeed: the
     * fields stay as typed; rejected input shows its error, sends nothing and
     * leaves `isLoading` alone; accepted input sends the token and the typed
     * password, shows the success or the expired-link toast, navigates to the
     * login page only on success, and ends with `isLoading` false.
     */
    method HandleSubmit(succeeded: bool)
      returns (toast: Toast, request: Option<ResetRequest>, navigateTo: Option<string>)
      requires View() == ResetForm
      modifies this
      ensures password == old(password) && confirmPassword == old(confirmPassword)
      ensures CheckInput(old(password), old(confirmPassword)).Some? ==>
        && toast == Toast("Error", CheckInput(old(password), old(confirmPassword)).value, true)
        && request == None && navigateTo == None && isLoading == old(isLoading)
      ensures CheckInput(old(password), old(confirmPassword)).None? ==>
        && request == Some(ResetRequest(token.value, old(password)))
        && !isLoading
        && (succeeded ==> toast == Toast("¡Éxito!", "Tu contraseña ha sido actualizada correctamente", false)
                          && navigateTo == Some("/auth"))
        && (!succeeded ==> toast == Toast("Error", "No se pudo restablecer la contraseña. El enlace puede haber expirado.", true)
                           && navigateTo == None)
    {
      var first;
      first, request := BeginSubmit();
      if request.None? {
        toast := first.value;
        navigateTo := None;
        return;
      }
      toast, navigateTo := FinishSubmit(succeeded);
    }
  }
}

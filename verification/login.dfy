/** The login page (src/app/components/login/login.component.ts). Each handler is
    split where the source waits for an answer: the first half runs up to the
    call, a second method is the callback that runs when the answer arrives. */
module Login {
  import opened Wrappers
  import opened Text
  import opened Models
  import Auth = AuthService

  const IncompleteFields := "Por favor, completa todos los campos"
  const DefaultLoginError := "Error al iniciar sesión"
  const RecoveryNeedsEmail := "Por favor, ingresa tu correo electrónico para recuperar tu contraseña"

  class LoginComponent {
    const authService: Auth.AuthService
    var email: string
    var password: string
    var isLoading: bool
    var errorMessage: string

    constructor (authService: Auth.AuthService)
      ensures this.authService == authService
      ensures email == "" && password == "" && !isLoading && errorMessage == ""
    {
      this.authService := authService;
      email := "";
      password := "";
      isLoading := false;
      errorMessage := "";
    }

    /** `onSubmit` up to the login call: with a field empty it only reports that,
        otherwise it starts loading with the error cleared. `started` says whether
        the login call is made. */
    method OnSubmit() returns (started: bool)
      modifies this`isLoading, this`errorMessage
      ensures started <==> email != "" && password != ""
      ensures !started ==> errorMessage == IncompleteFields && isLoading == old(isLoading)
      ensures started ==> isLoading && errorMessage == ""
    {
      if email == "" || password == "" {
        errorMessage := IncompleteFields;
        return false;
      }
      isLoading := true;
      errorMessage := "";
      started := true;
    }

    /** The callbacks of the login call: loading ends either way; a failure shows
        its message, or the default one when the message is empty. */
    method OnLoginReply(reply: Result<User>)
      modifies this`isLoading, this`errorMessage
      ensures !isLoading
      ensures reply.Ok? ==> errorMessage == old(errorMessage)
      ensures reply.Err? ==> errorMessage == OrElse(reply.message, DefaultLoginError) && errorMessage != ""
    {
      isLoading := false;
      if reply.Err? {
        errorMessage := OrElse(reply.message, DefaultLoginError);
      }
    }

    /** `onSubmit` with the session store answering at once: a complete form with
        the right password ends signed in with no error; a complete form with a
        wrong one ends with the store's generic error and the session unchanged. */
    method Submit() returns (started: bool)
      modifies this`isLoading, this`errorMessage, authService`currentUser
      ensures started <==> old(email) != "" && old(password) != ""
      ensures !started ==>
        (errorMessage == IncompleteFields && isLoading == old(isLoading) &&
         authService.currentUser == old(authService.currentUser))
      ensures started && authService.userService.VerifyPassword(email, password) ==>
        (!isLoading && errorMessage == "" && authService.currentUser.Some? &&
         authService.currentUser.value.email == email)
      ensures started && !authService.userService.VerifyPassword(email, password) ==>
        (!isLoading && errorMessage == Auth.LoginFailed && authService.currentUser == old(authService.currentUser))
    {
      started := OnSubmit();
      if started {
        var reply := authService.Login(email, password);
        OnLoginReply(reply);
      }
    }

    /** `recoverPassword` up to its timer: an empty email is reported, otherwise
        loading starts with the error cleared. */
    method RecoverPassword() returns (started: bool)
      modifies this`isLoading, this`errorMessage
      ensures started <==> email != ""
      ensures !started ==> errorMessage == RecoveryNeedsEmail && isLoading == old(isLoading)
      ensures started ==> isLoading && errorMessage == ""
    {
      if email == "" {
        errorMessage := RecoveryNeedsEmail;
        return false;
      }
      isLoading := true;
      errorMessage := "";
      started := true;
    }

    /** The timer callback of `recoverPassword`. */
    method OnRecoveryTimer()
      modifies this`isLoading
      ensures !isLoading
    {
      isLoading := false;
    }
  }
}

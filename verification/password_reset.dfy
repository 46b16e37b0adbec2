/** The password recovery page
    (src/app/components/password-reset/password-reset.component.ts). The three
    session-store calls it makes are not defined by the session store of this
    model, so their answers are parameters: each handler is split into the part
    that runs up to the call and the callback that runs when the answer arrives. */
module PasswordReset {
  import opened Wrappers
  import opened Text

  const EmailRequired := "Por favor, ingresa tu correo electrónico"
  const InstructionsSent := "¡Se han enviado las instrucciones a tu correo!"
  const RequestFailed := "Error al procesar la solicitud"
  const LinkExpired := "El enlace ha expirado o no es válido"
  const PasswordsDiffer := "Las contraseñas no coinciden"
  const PasswordTooShort := "La contraseña debe tener al menos 8 caracteres"
  const PasswordUpdated := "¡Contraseña actualizada con éxito!"
  const MinPasswordLength := 8

  class PasswordResetComponent {
    var email: string
    var newPassword: string
    var confirmPassword: string
    var isLoading: bool
    var errorMessage: string
    var successMessage: string
    var showResetForm: bool
    var token: string
    var showPassword: bool
    var showConfirmPassword: bool

    constructor ()
      ensures email == "" && newPassword == "" && confirmPassword == "" && token == ""
      ensures !isLoading && errorMessage == "" && successMessage == ""
      ensures !showResetForm && !showPassword && !showConfirmPassword
    {
      email := "";
      newPassword := "";
      confirmPassword := "";
      isLoading := false;
      errorMessage := "";
      successMessage := "";
      showResetForm := false;
      token := "";
      showPassword := false;
      showConfirmPassword := false;
    }

    /** The query-parameter subscription: a non-empty `token` parameter is kept and
        its verification starts (`verifyToken` up to its call). */
    method OnQueryParams(tokenParam: Option<string>) returns (verifying: bool)
      modifies this`token, this`isLoading
      ensures verifying <==> tokenParam.Some? && tokenParam.value != ""
      ensures verifying ==> token == tokenParam.value && isLoading
      ensures !verifying ==> token == old(token) && isLoading == old(isLoading)
    {
      verifying := tokenParam.Some? && tokenParam.value != "";
      if verifying {
        token := tokenParam.value;
        isLoading := true;
      }
    }

    /** The callbacks of `verifyToken`: a valid token opens the reset form, an
        invalid one only reports the expired link, a failure reports its message;
        loading ends in every case. */
    method OnTokenVerified(reply: Result<bool>)
      modifies this`showResetForm, this`errorMessage, this`isLoading
      ensures !isLoading
      ensures reply == Ok(true) ==> showResetForm && errorMessage == old(errorMessage)
      ensures reply == Ok(false) ==> showResetForm == old(showResetForm) && errorMessage == LinkExpired
      ensures reply.Err? ==> showResetForm == old(showResetForm) && errorMessage == reply.message
    {
      if reply.Ok? {
        if reply.value {
          showResetForm := true;
        } else {
          errorMessage := LinkExpired;
        }
      } else {
        errorMessage := reply.message;
      }
      isLoading := false;
    }

    /** `togglePasswordVisibility`: flips its own flag and nothing else, so two
        calls restore it. */
    method TogglePasswordVisibility()
      modifies this`showPassword
      ensures showPassword == !old(showPassword)
    {
      showPassword := !showPassword;
    }

    /** `toggleConfirmPasswordVisibility`: the same for the confirmation field. */
    method ToggleConfirmPasswordVisibility()
      modifies this`showConfirmPassword
      ensures showConfirmPassword == !old(showConfirmPassword)
    {
      showConfirmPassword := !showConfirmPassword;
    }

    /** `requestReset` up to its call: an empty email is only reported; otherwise
        loading starts with both messages cleared. */
    method RequestReset() returns (started: bool)
      modifies this`isLoading, this`errorMessage, this`successMessage
      ensures started <==> email != ""
      ensures !started ==>
        (errorMessage == EmailRequired && isLoading == old(isLoading) && successMessage == old(successMessage))
      ensures started ==> isLoading && errorMessage == "" && successMessage == ""
    {
      if email == "" {
        errorMessage := EmailRequired;
        return false;
      }
      isLoading := true;
      errorMessage := "";
      successMessage := "";
      started := true;
    }

    /** The callbacks of `requestReset`: success is announced, a failure shows its
        message or the default one; loading ends either way. */
    method OnResetRequested(reply: Result<()>)
      modifies this`isLoading, this`errorMessage, this`successMessage
      ensures !isLoading
      ensures reply.Ok? ==> successMessage == InstructionsSent && errorMessage == old(errorMessage)
      ensures reply.Err? ==>
        (errorMessage == OrElse(reply.message, RequestFailed) && errorMessage != "" &&
         successMessage == old(successMessage))
    {
      if reply.Ok? {
        successMessage := InstructionsSent;
      } else {
        errorMessage := OrElse(reply.message, RequestFailed);
      }
      isLoading := false;
    }

    /** `resetPassword` up to its call: differing passwords are reported first, even
        when too short; matching ones shorter than 8 characters are reported next;
        only a matching password of at least 8 characters starts the call, with
        loading on and both messages cleared. */
    method ResetPassword() returns (started: bool)
      modifies this`isLoading, this`errorMessage, this`successMessage
      ensures started <==> newPassword == confirmPassword && |newPassword| >= MinPasswordLength
      ensures newPassword != confirmPassword ==> errorMessage == PasswordsDiffer
      ensures newPassword == confirmPassword && |newPassword| < MinPasswordLength ==> errorMessage == PasswordTooShort
      ensures !started ==> isLoading == old(isLoading) && successMessage == old(successMessage)
      ensures started ==> isLoading && errorMessage == "" && successMessage == ""
    {
      if newPassword != confirmPassword {
        errorMessage := PasswordsDiffer;
        return false;
      }
      if |newPassword| < MinPasswordLength {
        errorMessage := PasswordTooShort;
        return false;
      }
      isLoading := true;
      errorMessage := "";
      successMessage := "";
      started := true;
    }

    /** The callbacks of `resetPassword`: success is announced, a failure shows its
        message; loading ends either way. */
    method OnPasswordReset(reply: Result<()>)
      modifies this`isLoading, this`errorMessage, this`successMessage
      ensures !isLoading
      ensures reply.Ok? ==> successMessage == PasswordUpdated && errorMessage == old(errorMessage)
      ensures reply.Err? ==> errorMessage == reply.message && successMessage == old(successMessage)
    {
      if reply.Ok? {
        successMessage := PasswordUpdated;
      } else {
        errorMessage := reply.message;
      }
      isLoading := false;
    }
  }
}

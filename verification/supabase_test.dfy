/** The connection check page (src/app/components/supabase-test/supabase-test.component.ts):
    its own copy of the retry loop, which also publishes the attempt number in
    `retryCount`, and the status fields set by `testConnection`. The remote
    procedure call is given as the outcome of each attempt. */
module SupabaseTest {
  import opened Wrappers
  import opened Retry

  const DefaultConnectionError := "Error al conectar con Supabase"

  class SupabaseTestComponent {
    const maxRetries: nat := 3
    const retryDelay: nat := 1000

    var isConnected: bool
    var isLoading: bool
    var connectionStatus: string
    var error: string
    var retryCount: int

    constructor ()
      ensures !isConnected && !isLoading && connectionStatus == "Desconectado" && error == "" && retryCount == 0
    {
      isConnected := false;
      isLoading := false;
      connectionStatus := "Desconectado";
      error := "";
      retryCount := 0;
    }

    /** The retry policy of this page: 3 attempts, 1000 ms base delay. */
    function Policy(): (p: RetryPolicy)
      ensures p.retryCount == 3 && p.retryDelay == 1000
    {
      RetryPolicy(maxRetries, retryDelay)
    }

    /** `retryOperation`: the same loop as the course service's, with `retryCount`
        reset to 0 and set to i + 1 just before attempt i; so afterwards it holds
        the number of attempts made. */
    method RetryOperation<T>(op: nat -> Outcome<T>) returns (run: RetryRun<T>)
      modifies this`retryCount
      ensures run == RetrySpec(op, Policy())
      ensures retryCount == run.attempts && 1 <= retryCount <= maxRetries
    {
      retryCount := 0;
      var lastError: Option<Error> := None;
      var waits: seq<nat> := [];
      var warnings: seq<Warning> := [];
      var i := 0;
      while i < maxRetries
        invariant 0 <= i <= maxRetries && retryCount == i
        invariant i == 0 ==> lastError == None
        invariant var tail := RunFrom(op, Policy(), i, lastError);
          RetrySpec(op, Policy()) == RetryRun(tail.result, tail.attempts, waits + tail.waits, warnings + tail.warnings)
      {
        retryCount := i + 1;
        match op(i)
        case Succeeded(v) =>
          return RetryRun(Returned(v), i + 1, waits, warnings);
        case Failed(e) =>
          lastError := Some(e);
          warnings := warnings + [Warning(i + 1, maxRetries, e.message)];
          if i < maxRetries - 1 {
            waits := waits + [Backoff(Policy(), i)];
          }
        i := i + 1;
      }
      run := RetryRun(Threw(lastError), i, waits, warnings);
    }

    /** `testConnection`: runs the check under the retry loop; on success marks the
        page connected, on failure records the error's message (or a default for an
        empty one); in every case loading ends. */
    method TestConnection<T>(op: nat -> Outcome<T>)
      modifies this`isLoading, this`error, this`isConnected, this`connectionStatus, this`retryCount
      ensures !isLoading && 1 <= retryCount <= maxRetries
      ensures (exists k :: 0 <= k < maxRetries && op(k).Succeeded?) ==>
        isConnected && connectionStatus == "¡Conectado correctamente!" && error == ""
      ensures (forall k :: 0 <= k < maxRetries ==> op(k).Failed?) ==>
        !isConnected && connectionStatus == "Error de conexión" &&
        error == (if op(maxRetries - 1).error.message != "" then op(maxRetries - 1).error.message else DefaultConnectionError)
    {
      isLoading := true;
      error := "";
      var run := RetryOperation(op);
      RetryOutcome(op, Policy());
      if run.result.Returned? {
        isConnected := true;
        connectionStatus := "¡Conectado correctamente!";
      } else {
        isConnected := false;
        connectionStatus := "Error de conexión";
        var message := run.result.lastError.value.message;
        error := if message != "" then message else DefaultConnectionError;
      }
      isLoading := false;
    }
  }
}

/** Navigation arguments that a screen cannot start without. */
module SavedState {
  import opened Wrappers

  /** `savedStateHandle.get<String>(key) ?: throw IllegalArgumentException(...)`. */
  datatype ArgumentError = IllegalArgumentException(message: string)

  /** The string argument under `key`; the error when it is missing. */
  function RequiredArgument(savedState: map<string, string>, key: string): (r: Result<string, ArgumentError>)
    ensures r.Success? <==> key in savedState
    ensures r.Success? ==> r.value == savedState[key]
    ensures r.Failure? ==> r.error == IllegalArgumentException(key + " is required")
  {
    if key in savedState then Success(savedState[key]) else Failure(IllegalArgumentException(key + " is required"))
  }
}

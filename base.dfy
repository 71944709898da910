/** Values shared by both variants of the Clipify class: optional values, the
    errors a call can reject with, and the browser clipboard as one call sees it. */
module Base {

  /** A JavaScript value that may be `undefined`. */
  datatype Option<+T> = None | Some(value: T)

  /** The errors that reach the caller as a rejected promise. */
  datatype Error =
    | TextRequired   // copy was given missing or empty text (keyed variant only)
    | Unsupported    // `navigator.clipboard` does not exist
    | ReadFailed     // `navigator.clipboard.readText` rejected; its own error is passed on

  /** The message of the Error object thrown for each error the library raises
      itself (a rejected read passes on the browser's own error instead). */
  function Message(e: Error): (m: string)
    requires !e.ReadFailed?
    ensures e.TextRequired? ==> m == "Text is required to copy to clipboard."
    ensures e.Unsupported? ==> m == "Clipboard API not supported in this browser."
  {
    match e
    case TextRequired => "Text is required to copy to clipboard."
    case Unsupported => "Clipboard API not supported in this browser."
  }

  /** How an `async` operation without a result settles. */
  datatype Status = Resolved | Rejected(error: Error)

  /** How an `async` operation with a result settles. */
  datatype Result<+T> = Ok(value: T) | Err(error: Error)

  /** The browser clipboard as one call sees it: either `navigator.clipboard` is
      absent, or it is present and its `writeText` resolves or rejects and its
      `readText` resolves with some text or rejects. */
  datatype Clipboard =
    | Missing
    | Present(writeResolves: bool, readResult: Option<string>)

  /** `if (expiryTime)`: a number is truthy unless it is undefined or zero, so
      any other delay, a negative one included, arms the timer. */
  predicate Arms(expiryTime: Option<int>): (armed: bool)
    ensures expiryTime.None? ==> !armed
    ensures expiryTime == Some(0) ==> !armed
    ensures expiryTime.Some? && expiryTime.value < 0 ==> armed
    ensures expiryTime.Some? && expiryTime.value > 0 ==> armed
  {
    expiryTime.Some? && expiryTime.value != 0
  }

  /** `if (s)` / `!s` on an optional string: undefined and "" are falsy, and
      every string of at least one character is truthy. */
  predicate Truthy(s: Option<string>): (truthy: bool)
    ensures s.None? ==> !truthy
    ensures s == Some("") ==> !truthy
    ensures s.Some? && |s.value| > 0 ==> truthy
  {
    s.Some? && s.value != ""
  }

  /** `navigator.clipboard.readText()` as awaited by `paste`: an absent clipboard
      rejects with Unsupported, a rejected read is re-thrown, otherwise its text. */
  function ReadClipboard(clipboard: Clipboard): (r: Result<string>)
    ensures r.Ok? <==> clipboard.Present? && clipboard.readResult.Some?
    ensures r.Ok? ==> r.value == clipboard.readResult.value
    ensures clipboard.Missing? ==> r == Err(Unsupported)
    ensures clipboard.Present? && clipboard.readResult.None? ==> r == Err(ReadFailed)
  {
    match clipboard
    case Missing => Err(Unsupported)
    case Present(_, read) =>
      match read
      case None => Err(ReadFailed)
      case Some(text) => Ok(text)
  }
}

/** Values the appender core passes around but does not own: log events,
    layouts, exceptions handed to the error handler, and the lines written
    to the process-wide diagnostic channel. */
module LoggingTypes {

  /** A Java reference that may be null, for values (strings, exceptions,
      layouts); nullable objects are written `C?` instead. */
  datatype Option<T> = None | Some(value: T) {
    function GetOr(default: T): T {
      match this
      case Some(v) => v
      case None => default
    }
  }

  /** Java's `int`. */
  newtype int32 = x: int | -0x8000_0000 <= x < 0x8000_0000

  /** Error codes concrete sinks pass to the error handler. */
  const CODE_WRITE_FAILURE: int32 := 1
  const CODE_FLUSH_FAILURE: int32 := 2
  const CODE_CLOSE_FAILURE: int32 := 3
  const CODE_FILE_OPEN_FAILURE: int32 := 4

  /** An opaque, immutable log event. */
  datatype LoggingEvent = LoggingEvent(message: string, level: int, timestamp: int, throwable: Option<string>)

  /** The formatting capability an appender may hold; the core only stores it. */
  datatype Layout = Layout(contentType: string, header: Option<string>, footer: Option<string>, ignoresThrowable: bool)

  /** The run-time class of an exception as far as the error handler looks at it:
      `InterruptedIO` stands for `java.io.InterruptedIOException` and its
      subclasses, `Interrupted` for `java.lang.InterruptedException`. */
  datatype ExceptionKind = InterruptedIO | Interrupted | OtherException(className: string)

  datatype Exception = Exception(kind: ExceptionKind, message: string)

  /** `e instanceof InterruptedIOException || e instanceof InterruptedException`;
      `instanceof` is false of null. */
  predicate IsInterruption(e: Option<Exception>)
  {
    e.Some? && (e.value.kind.InterruptedIO? || e.value.kind.Interrupted?)
  }

  /** One line written to the diagnostic channel: either the notice that an event
      was sent to a closed appender, or an error reported by the error handler. */
  datatype Diagnostic =
    | AppendWhileClosed(text: string)
    | ReportedError(text: string, cause: Option<Exception>)

  /** Java's rendering of a possibly-null string inside a concatenation. */
  function NameText(name: Option<string>): (r: string)
    ensures name.None? ==> r == "null"
    ensures name.Some? ==> r == name.value
  {
    name.GetOr("null")
  }

  predicate IsDigits(s: string)
  {
    forall k :: 0 <= k < |s| ==> '0' <= s[k] <= '9'
  }

  function Digit(d: nat): (c: char)
    requires d < 10
    ensures '0' <= c <= '9' && c as int - '0' as int == d
  {
    ('0' as int + d) as char
  }

  /** The number a string of decimal digits denotes, most significant first. */
  function DecimalValue(s: string): nat
    requires IsDigits(s)
  {
    if s == [] then 0 else DecimalValue(s[..|s| - 1]) * 10 + (s[|s| - 1] as int - '0' as int)
  }

  /** Decimal digits of `n`, most significant first, without leading zeros. */
  function NatToDecimal(n: nat): (r: string)
    ensures |r| > 0 && IsDigits(r)
    ensures r[0] == '0' ==> n == 0
    ensures DecimalValue(r) == n
  {
    if n < 10 then [Digit(n)] else NatToDecimal(n / 10) + [Digit(n % 10)]
  }

  /** `Integer.toString`: a leading minus sign for negative values, then the
      digits of the magnitude. */
  function IntToDecimal(i: int32): (r: string)
    ensures |r| > 0
    ensures (r[0] == '-') <==> i < 0
    ensures i < 0 ==> |r| > 1 && IsDigits(r[1..]) && DecimalValue(r[1..]) == -(i as int)
    ensures i >= 0 ==> IsDigits(r) && DecimalValue(r) == i as int
  {
    if i < 0 then "-" + NatToDecimal(-(i as int)) else NatToDecimal(i as int)
  }

  /** The text `SysLogger.error` receives from `doAppend` on a closed appender. */
  function ClosedAppendText(name: Option<string>): string
  {
    "Attempted to append to closed appender named [" + NameText(name) + "]."
  }

  /** The text the error handler with an error code writes: `message + " code:" + errorCode`. */
  function CodedErrorText(message: string, errorCode: int32): string
  {
    message + " code:" + IntToDecimal(errorCode)
  }
}

/** The parts of a fetch Response the page looks at, and the status check applied to it. */
module Http {
  import opened Wrappers
  import opened Numerals

  /**
   * A response: its status code, its reason phrase, and what reading its body
   * as JSON yields (a value, or the message of the parse failure).
   */
  datatype Response<+T> = Response(status: nat, statusText: string, json: Result<T, string>) {
    /** Response.ok: the status is in the range 200-299, the class of three-digit codes starting with 2. */
    predicate IsOk(): (ok: bool)
      ensures ok <==> |Decimal(status)| == 3 && Decimal(status)[0] == '2'
    {
      ThreeDigits(status);
      200 <= status <= 299
    }
  }

  /** The text of the error checkStatus throws. */
  function StatusMessage(status: nat, statusText: string): (msg: string)
    ensures |msg| > 8 + |statusText| && msg[..5] == "HTTP "
    ensures msg[|msg| - |statusText|..] == statusText
  {
    "HTTP " + Decimal(status) + " - " + statusText
  }

  /** Reads a status message back into its status code and reason phrase. */
  function ParseStatusMessage(msg: string): Option<(nat, string)> {
    if |msg| < 5 || msg[..5] != "HTTP " then None
    else
      var rest := msg[5..];
      var k := DigitRun(rest);
      if k == 0 || (k > 1 && rest[0] == '0') || |rest| < k + 3 || rest[k..k + 3] != " - " then None
      else Some((ValueOf(rest[..k]), rest[k + 3..]))
  }

  /** The only message read back as a given status and reason phrase is the one checkStatus writes. */
  lemma StatusMessageParsedBack(msg: string, status: nat, statusText: string)
    requires ParseStatusMessage(msg) == Some((status, statusText))
    ensures msg == StatusMessage(status, statusText)
  {
    var rest := msg[5..];
    var k := DigitRun(rest);
    var d := rest[..k];
    assert d[0] == rest[0];
    DecimalOfCanonical(d);
    assert rest == d + " - " + statusText;
    assert msg == msg[..5] + rest;
  }

  /** A status message names its status code and reason phrase without loss. */
  lemma StatusMessageRoundTrip(status: nat, statusText: string)
    ensures ParseStatusMessage(StatusMessage(status, statusText)) == Some((status, statusText))
  {
    var d := Decimal(status);
    var msg := StatusMessage(status, statusText);
    assert msg == "HTTP " + (d + (" - " + statusText));
    var rest := msg[5..];
    assert rest == d + (" - " + statusText);
    DigitRunOfDigits(d, " - " + statusText);
    assert rest[..|d|] == d;
    assert rest[|d|..|d| + 3] == " - ";
    assert rest[|d| + 3..] == statusText;
    DecimalRoundTrip(status);
  }

  /**
   * checkStatus: a response with an ok status passes through unchanged; any
   * other fails with a message from which status and reason phrase can be read back.
   */
  function CheckStatus<T>(response: Response<T>): (r: Result<Response<T>, string>)
    ensures r.Ok? <==> response.IsOk()
    ensures r.Ok? ==> r.value == response
    ensures r.Err? ==> r.error == StatusMessage(response.status, response.statusText)
    ensures r.Err? ==> ParseStatusMessage(r.error) == Some((response.status, response.statusText))
  {
    if !response.IsOk() then
      StatusMessageRoundTrip(response.status, response.statusText);
      Err(StatusMessage(response.status, response.statusText))
    else
      Ok(response)
  }

  /**
   * The promise chain fetch(...).then(checkStatus).then(r => r.json()): a
   * transport failure, a failed status check or a body that is not JSON ends
   * in the message of the first failure; otherwise it yields the decoded body.
   */
  function Body<T>(outcome: Result<Response<T>, string>): (r: Result<T, string>)
    ensures outcome.Err? ==> r == Err(outcome.error)
    ensures outcome.Ok? && !outcome.value.IsOk() ==>
              r == Err(StatusMessage(outcome.value.status, outcome.value.statusText))
    ensures outcome.Ok? && !outcome.value.IsOk() ==>
              r.Err? && ParseStatusMessage(r.error) == Some((outcome.value.status, outcome.value.statusText))
    ensures outcome.Ok? && outcome.value.IsOk() ==> r == outcome.value.json
  {
    match outcome
    case Err(e) => Err(e)
    case Ok(response) =>
      match CheckStatus(response)
      case Err(e) => Err(e)
      case Ok(checked) => checked.json
  }
}

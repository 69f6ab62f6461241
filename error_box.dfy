/**
 * The one-line message of the error dialog: a message longer than 120 code
 * units is cut to its first 119 and followed by "...".
 */
module ErrorBox {
  import opened JavaLang

  const MAX_LENGTH: nat := 120
  const ELLIPSIS: JString := [DOT, DOT, DOT]

  /** Every result has at most 122 units and keeps the message's first min(length, 119). */
  function Truncate(message: JString): (r: JString)
    ensures |r| <= MAX_LENGTH + 2
    ensures |message| <= MAX_LENGTH - 1 ==> r == message
    ensures |message| > MAX_LENGTH - 1 ==> |r| >= MAX_LENGTH - 1 && r[..MAX_LENGTH - 1] == message[..MAX_LENGTH - 1]
  {
    if |message| > MAX_LENGTH then message[..MAX_LENGTH - 1] + ELLIPSIS else message
  }

  /**
   * The label text for a message that may be null: `message.length()` on a
   * null message (an exception without a message) throws NullPointerException.
   */
  function TruncatedLabel(message: Option<JString>): (r: Result<JString, JavaError>)
    ensures r.Err? <==> message.None?
    ensures r.Err? ==> r.error == NullPointer
    ensures r.Ok? ==> message.Some? && r.value == Truncate(message.value)
  {
    match message
    case None => Err(NullPointer)
    case Some(m) => Ok(Truncate(m))
  }

  /** A message of at most 120 units is shown unchanged. */
  lemma TruncateShortUnchanged(message: JString)
    requires |message| <= MAX_LENGTH
    ensures Truncate(message) == message
  {
  }

  /** A longer message becomes its first 119 units and "...", 122 units in all. */
  lemma TruncateLong(message: JString)
    requires |message| > MAX_LENGTH
    ensures |Truncate(message)| == MAX_LENGTH + 2
    ensures Truncate(message)[..MAX_LENGTH - 1] == message[..MAX_LENGTH - 1]
    ensures Truncate(message)[MAX_LENGTH - 1..] == ELLIPSIS
  {
  }

  /** Truncating a truncated message changes nothing. */
  lemma TruncateIdempotent(message: JString)
    ensures Truncate(Truncate(message)) == Truncate(message)
  {
    if |message| > MAX_LENGTH {
      var t := Truncate(message);
      assert t[..MAX_LENGTH - 1] == message[..MAX_LENGTH - 1];
    }
  }
}

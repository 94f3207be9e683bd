/**
 * The decisions of the log mailer: which message to send for the run's log file,
 * whether to attach the whole file or only its last lines, and the lifecycle of the
 * temporary file holding those lines. The SMTP exchange is an input (it succeeds or raises).
 */
module Emailer {
  import opened Common
  import opened BoundedDeque

  /** Attachment size limit used when `EMAIL_MAX_ATTACHMENT_BYTES` is unset: 20 MiB. */
  const DefaultMaxAttachmentBytes: int := 20 * 1024 * 1024
  /** Number of lines kept when `EMAIL_TAIL_LINES` is unset. */
  const DefaultTailLines: int := 1000

  const NoLogBody: string := "No vehicle log found to attach."
  /** The first line of a message that carries the log. It and `TruncationNote` are each
      written as a short literal joined to the rest, because Dafny does not look inside one
      long string literal, and `IntroLacksNote` needs their first characters. */
  const AttachedIntro: string := "Attached " + "is the vehicle detection CSV log from latest run.\n"
  /** The sentence appended to that line when only the tail of the log is attached. */
  const TruncationNote: string := "(" + "Note: original log was large and has been truncated.)"

  /** `maxlen` of a deque given a negative value, or an SMTP step that raised. */
  datatype Error = NegativeMaxlen | SmtpFailed

  /** `_tail_file`: the last `maxLines` lines of the file, read into a bounded deque one
      line at a time; a negative bound raises. */
  method TailFile(lines: seq<string>, maxLines: int) returns (r: Result<seq<string>, Error>)
    ensures maxLines < 0 ==> r == Err(NegativeMaxlen)
    ensures maxLines >= 0 ==> r == Ok(Window(lines, maxLines))
  {
    if maxLines < 0 {
      return Err(NegativeMaxlen);
    }
    var maxlen: nat := maxLines;
    var dq: seq<string> := [];
    var i := 0;
    while i < |lines|
      invariant 0 <= i <= |lines|
      invariant dq == Window(lines[..i], maxlen)
    {
      PushPrefix(lines, i, maxlen);
      dq := Push(dq, lines[i], maxlen);
      i := i + 1;
    }
    assert lines[..|lines|] == lines;
    return Ok(dq);
  }

  /** The attachment limit in bytes: the environment's value, or 20 MiB when unset. */
  function MaxBytes(env: Option<int>): (r: int)
    ensures env.None? ==> r == 20971520
    ensures env.Some? ==> r == env.value
  {
    match env
    case None => DefaultMaxAttachmentBytes
    case Some(v) => v
  }

  /** The number of lines kept: the environment's value, or 1000 when unset. */
  function TailLines(env: Option<int>): (r: int)
    ensures env.None? ==> r == 1000
    ensures env.Some? ==> r == env.value
  {
    match env
    case None => DefaultTailLines
    case Some(v) => v
  }

  datatype Decision = NotifyNoLog | AttachWhole | AttachTail

  /** The content choice: no file means a notification only; a file is attached whole
      unless it is strictly larger than the limit, in which case its tail is attached. */
  function Decide(fileExists: bool, size: int, maxBytes: int): (d: Decision)
    ensures d == NotifyNoLog <==> !fileExists
    ensures d == AttachTail <==> fileExists && size > maxBytes
    ensures d == AttachWhole <==> fileExists && size <= maxBytes
  {
    if !fileExists then NotifyNoLog
    else if size > maxBytes then AttachTail
    else AttachWhole
  }

  /** The body of a message that carries the log: it opens with the intro line, and it
      mentions the truncation exactly when the log was truncated. */
  function AttachedBody(truncated: bool): (body: string)
    ensures |AttachedIntro| <= |body| && body[..|AttachedIntro|] == AttachedIntro
    ensures Contains(body, TruncationNote) <==> truncated
  {
    if truncated then
      assert OccursAt(AttachedIntro + TruncationNote, TruncationNote, |AttachedIntro|);
      AttachedIntro + TruncationNote
    else
      IntroLacksNote();
      AttachedIntro
  }

  /** The intro line alone does not contain the truncation note: the note's opening `(`
      appears nowhere in it. */
  lemma IntroLacksNote()
    ensures !Contains(AttachedIntro, TruncationNote)
  {
    forall i | 0 <= i <= |AttachedIntro| - |TruncationNote| ensures !OccursAt(AttachedIntro, TruncationNote, i) {
      assert AttachedIntro[i] != TruncationNote[0];
    }
  }

  /** `t` occurs in `s` starting at position `i`. */
  predicate OccursAt(s: string, t: string, i: int)
  {
    0 <= i <= |s| - |t| && s[i..i + |t|] == t
  }

  /** `t` occurs in `s` as a contiguous substring. */
  predicate Contains(s: string, t: string)
  {
    exists i :: 0 <= i <= |s| - |t| && OccursAt(s, t, i)
  }

  datatype Attachment = OriginalFile | TailCopy(lines: seq<string>)

  datatype Email = Email(body: string, attachment: Option<Attachment>)

  /** What is known of the log file when it exists: its size in bytes and its lines. */
  datatype LogFile = LogFile(size: int, lines: seq<string>)

  /** What `send_log` did: the message composed for sending (if it got that far),
      the error it raised (if any), and whether a temporary file was created and removed. */
  datatype SendLogResult = SendLogResult(email: Option<Email>, error: Option<Error>, tempCreated: bool, tempRemoved: bool)

  /** `send_log`: mail a notification when the log is missing; otherwise mail the log, or a
      temporary copy of its last lines when it exceeds the limit, and remove that copy after
      the SMTP exchange whether or not the exchange raised. */
  method SendLog(log: Option<LogFile>, maxBytesEnv: Option<int>, tailLinesEnv: Option<int>, smtpOk: bool)
    returns (r: SendLogResult)
    ensures var maxBytes := MaxBytes(maxBytesEnv);
      var decision := Decide(log.Some?, if log.Some? then log.value.size else 0, maxBytes);
      && (decision == NotifyNoLog ==>
            r == SendLogResult(Some(Email(NoLogBody, None)), if smtpOk then None else Some(SmtpFailed), false, false))
      && (decision == AttachWhole ==>
            r == SendLogResult(Some(Email(AttachedBody(false), Some(OriginalFile))), if smtpOk then None else Some(SmtpFailed), false, false))
      && (decision == AttachTail && TailLines(tailLinesEnv) >= 0 ==>
            r == SendLogResult(Some(Email(AttachedBody(true), Some(TailCopy(Window(log.value.lines, TailLines(tailLinesEnv)))))),
                               if smtpOk then None else Some(SmtpFailed), true, true))
      && (decision == AttachTail && TailLines(tailLinesEnv) < 0 ==>
            r == SendLogResult(None, Some(NegativeMaxlen), true, false))
    ensures r.tempCreated <==> log.Some? && log.value.size > MaxBytes(maxBytesEnv)
    ensures r.tempRemoved <==> r.tempCreated && r.error != Some(NegativeMaxlen)
    ensures r.email.Some? ==> (r.email.value.attachment.None? <==> log.None?)
    ensures r.email.Some? && log.Some? ==> (Contains(r.email.value.body, TruncationNote) <==> r.tempCreated)
    ensures r.email.Some? ==> (r.error.None? <==> smtpOk)
  {
    var maxBytes := MaxBytes(maxBytesEnv);
    var tailLines := TailLines(tailLinesEnv);
    var smtpError: Option<Error> := if smtpOk then None else Some(SmtpFailed);

    if log.None? {
      return SendLogResult(Some(Email(NoLogBody, None)), smtpError, false, false);
    }

    var fileSize := log.value.size;
    var attach := OriginalFile;
    var truncated := false;
    var tmpCreated := false;

    if fileSize > maxBytes {
      truncated := true;
      // the temporary file exists from here on, even if the tail raises
      tmpCreated := true;
      var tail := TailFile(log.value.lines, tailLines);
      if tail.Err? {
        return SendLogResult(None, Some(tail.error), tmpCreated, false);
      }
      attach := TailCopy(tail.value);
    }

    var body := AttachedBody(truncated);
    var email := Email(body, Some(attach));
    // the cleanup runs in a `finally`, after the exchange succeeded or raised
    var tmpRemoved := tmpCreated;
    r := SendLogResult(Some(email), smtpError, tmpCreated, tmpRemoved);
  }
}

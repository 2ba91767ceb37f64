/**
 * The minimal NNTP client used for article checks
 * (backend/services/usenet/nntp.go): parsing a response line (RFC 3977
 * section 3.2), the greeting and AUTHINFO exchange (RFC 3977 section 5.1.1,
 * RFC 4643 section 2.3), and the STAT check of an article (RFC 3977 section
 * 6.2.4). The connection is the sequence of lines the server will send and
 * the commands written so far; dialling, TLS and deadlines are not modelled.
 */
module Nntp {
  import opened Wrappers
  import opened Strs

  /** A parsed response: the three-digit status and the text after it. */
  datatype Reply = Reply(code: int, message: string)

  datatype NntpError =
    | ReadFailed
    | MalformedResponse(line: string)
    | InvalidResponseCode

  /** What `readResponse` makes of one line (without its CRLF). Go measures
      the line and cuts its code in bytes; the model counts characters, which
      agree on the ASCII lines a server sends. */
  function ParseLine(line: string): (r: Result<Reply, NntpError>)
    ensures r.Ok? ==> |line| >= 3 && ParseInt(line[..3]) == Some(r.value.code)
    ensures |line| >= 3 && AllDigits(line[..3]) ==> r.Ok? && 0 <= r.value.code <= 999
    ensures |line| < 3 ==> r == Err(MalformedResponse(line))
  {
    if |line| < 3 then Err(MalformedResponse(line))
    else
      assert AllDigits(line[..3]) ==> DigitsValue(line[..3]) <= 999 by {
        if AllDigits(line[..3]) { ThreeDigitsAtMost999(line[..3]); }
      }
      match ParseInt(line[..3])
      case None => Err(InvalidResponseCode)
      case Some(code) => Ok(Reply(code, ReplyText(line[3..])))
  }

  /** The text after the code: trimmed, with one leading "-" dropped. */
  function ReplyText(rest: string): string
  {
    var message := Trim(rest);
    if HasPrefix(message, "-") then Trim(message[1..]) else message
  }

  lemma ThreeDigitsAtMost999(s: string)
    requires |s| == 3 && AllDigits(s)
    ensures DigitsValue(s) <= 999
  {
    assert s[..2][..1] == s[..1];
    assert DigitsValue(s[..1]) <= 9;
  }

  /** Trimmed text without surrounding white space; a space before it goes. */
  lemma TrimAfterSpace(sep: char, text: string)
    requires IsSpace(sep)
    requires text == [] || (!IsSpace(text[0]) && !IsSpace(text[|text| - 1]))
    ensures Trim([sep] + text) == text
  {
    var s := [sep] + text;
    assert s[1..] == text;
    assert LeadingSpaces(s) == 1;
    assert TrimLeft(s) == text;
    TrimOfTrimmed(text);
  }

  /** A three-digit code is written with three characters. */
  lemma ThreeDigitCode(code: int)
    requires 100 <= code <= 999
    ensures |IntToString(code)| == 3
  {
    assert NatToString(code / 100) == [DigitChar(code / 100)];
    assert |NatToString(code / 10)| == 2;
  }

  /** A status line as a server writes it reads back as the code and the
      text, whether the separator is a space or a dash. */
  lemma ResponseRoundTrip(code: int, sep: char, text: string)
    requires 100 <= code <= 999
    requires sep == ' ' || sep == '-'
    requires text == [] || (!IsSpace(text[0]) && !IsSpace(text[|text| - 1]))
    requires sep == ' ' ==> !HasPrefix(text, "-")
    ensures ParseLine(IntToString(code) + [sep] + text) == Ok(Reply(code, text))
  {
    var digits := IntToString(code);
    var line := digits + [sep] + text;
    ThreeDigitCode(code);
    assert line[..3] == digits;
    assert line[3..] == [sep] + text;
    ParseIntOfIntToString(code);
    if sep == ' ' {
      TrimAfterSpace(sep, text);
    } else {
      var m := [sep] + text;
      TrimOfTrimmed(m);
      assert m[1..] == text;
      TrimOfTrimmed(text);
    }
  }

  // ---------------------------------------------------------------------------
  // The connection.
  // ---------------------------------------------------------------------------

  /** The client's view of the connection: the lines still to arrive
      (`None`: the read fails) and the command lines written. */
  class Connection {
    var incoming: seq<Option<string>>
    var sent: seq<string>

    constructor(incoming: seq<Option<string>>)
      ensures this.incoming == incoming && sent == []
    {
      this.incoming := incoming;
      sent := [];
    }

    /** `readResponse`: the next line, parsed; a closed connection or a
        failed read is an error. */
    method ReadResponse() returns (r: Result<Reply, NntpError>)
      modifies this
      ensures r == NextReply(old(incoming))
      ensures incoming == Rest(old(incoming)) && sent == old(sent)
    {
      if incoming == [] {
        return Err(ReadFailed);
      }
      var line := incoming[0];
      incoming := incoming[1..];
      if line.None? {
        return Err(ReadFailed);
      }
      r := ParseLine(line.value);
    }

    /** `sendCommand`: write the line, then read the reply. */
    method SendCommand(command: string) returns (r: Result<Reply, NntpError>)
      modifies this
      ensures r == NextReply(old(incoming))
      ensures incoming == Rest(old(incoming)) && sent == old(sent) + [command]
    {
      sent := sent + [command];
      r := ReadResponse();
    }

    /** `initialize`: the greeting, then AUTHINFO when a username is set. */
    method Initialize(username: string, password: string) returns (r: Result<(), InitError>)
      modifies this
      ensures var x := InitExchange(old(incoming), username, password);
        r == x.result && sent == old(sent) + x.commands && incoming == old(incoming)[x.consumed..]
    {
      var greeting := ReadResponse();
      if greeting.Err? {
        return Err(GreetingFailed(greeting.error));
      }
      if greeting.value.code != 200 && greeting.value.code != 201 {
        return Err(UnexpectedGreeting(greeting.value.code));
      }
      if Trim(username) != "" {
        var user := SendCommand("AUTHINFO USER " + username);
        if user.Err? {
          return Err(AuthUserFailed(user.error));
        }
        var code := user.value.code;
        if code == 281 {
        } else if code == 381 {
          var pass := SendCommand("AUTHINFO PASS " + password);
          if pass.Err? {
            return Err(AuthPasswordFailed(pass.error));
          }
          if pass.value.code != 281 {
            return Err(AuthRejected(pass.value.code));
          }
        } else if code >= 400 {
          return Err(AuthRejected(code));
        }
      }
      r := Ok(());
    }

    /** `CheckArticle`: STAT the normalised ID and classify the reply. */
    method CheckArticle(messageID: string) returns (r: Result<bool, CheckError>)
      modifies this
      ensures IsBlank(messageID) ==> r == Err(EmptyMessageID) && sent == old(sent) && incoming == old(incoming)
      ensures !IsBlank(messageID) ==>
        sent == old(sent) + ["STAT " + NormalizeMessageID(messageID)] && incoming == Rest(old(incoming))
        && r == (match NextReply(old(incoming))
                 case Err(e) => Err(CommandFailed(e))
                 case Ok(reply) => ClassifyStat(reply.code))
    {
      if Trim(messageID) == "" {
        return Err(EmptyMessageID);
      }
      var normalizedID := Trim(messageID);
      if !HasPrefix(normalizedID, "<") {
        normalizedID := "<" + normalizedID + ">";
      }
      var reply := SendCommand("STAT " + normalizedID);
      if reply.Err? {
        return Err(CommandFailed(reply.error));
      }
      r := ClassifyStat(reply.value.code);
    }
  }

  /** The reply the next line gives. */
  function NextReply(incoming: seq<Option<string>>): Result<Reply, NntpError>
  {
    if incoming == [] || incoming[0].None? then Err(ReadFailed) else ParseLine(incoming[0].value)
  }

  /** The lines left after reading one. */
  function Rest(incoming: seq<Option<string>>): seq<Option<string>>
  {
    if incoming == [] then [] else incoming[1..]
  }

  // ---------------------------------------------------------------------------
  // The greeting and authentication.
  // ---------------------------------------------------------------------------

  datatype InitError =
    | GreetingFailed(cause: NntpError)
    | UnexpectedGreeting(code: int)
    | AuthUserFailed(cause: NntpError)
    | AuthPasswordFailed(cause: NntpError)
    | AuthRejected(code: int)

  /** An exchange: its outcome, the commands written and the lines read. */
  datatype Exchange = Exchange(result: Result<(), InitError>, commands: seq<string>, consumed: nat)

  /** The exchange `initialize` has with a server that will send `incoming`. */
  function InitExchange(incoming: seq<Option<string>>, username: string, password: string): (x: Exchange)
    ensures x.consumed <= |incoming|
  {
    var greeting := NextReply(incoming);
    var greetingRead := if incoming == [] then 0 else 1;
    if greeting.Err? then Exchange(Err(GreetingFailed(greeting.error)), [], greetingRead)
    else if greeting.value.code != 200 && greeting.value.code != 201 then
      Exchange(Err(UnexpectedGreeting(greeting.value.code)), [], 1)
    else if Trim(username) == "" then Exchange(Ok(()), [], 1)
    else
      var userCmd := "AUTHINFO USER " + username;
      var afterGreeting := incoming[1..];
      var user := NextReply(afterGreeting);
      var userRead := if afterGreeting == [] then 1 else 2;
      if user.Err? then Exchange(Err(AuthUserFailed(user.error)), [userCmd], userRead)
      else if user.value.code == 281 then Exchange(Ok(()), [userCmd], 2)
      else if user.value.code == 381 then
        var passCmd := "AUTHINFO PASS " + password;
        var afterUser := afterGreeting[1..];
        var pass := NextReply(afterUser);
        var passRead := if afterUser == [] then 2 else 3;
        if pass.Err? then Exchange(Err(AuthPasswordFailed(pass.error)), [userCmd, passCmd], passRead)
        else if pass.value.code != 281 then Exchange(Err(AuthRejected(pass.value.code)), [userCmd, passCmd], 3)
        else Exchange(Ok(()), [userCmd, passCmd], 3)
      else if user.value.code >= 400 then Exchange(Err(AuthRejected(user.value.code)), [userCmd], 2)
      else Exchange(Ok(()), [userCmd], 2)
  }

  /** Only a 200 or 201 greeting is accepted, and without a username no
      command is written. */
  lemma GreetingMeaning(incoming: seq<Option<string>>, username: string, password: string)
    ensures InitExchange(incoming, username, password).result.Ok? ==>
      NextReply(incoming).Ok? && NextReply(incoming).value.code in {200, 201}
    ensures IsBlank(username) ==>
      InitExchange(incoming, username, password).commands == []
      && (InitExchange(incoming, username, password).result.Ok? <==>
            NextReply(incoming).Ok? && NextReply(incoming).value.code in {200, 201})
  {
  }

  /** With a username, USER is sent after the greeting; 381 asks for PASS,
      which must be answered with 281; any other reply succeeds exactly
      when it is below 400 (281 among them). */
  lemma AuthMeaning(incoming: seq<Option<string>>, username: string, password: string)
    requires !IsBlank(username)
    requires NextReply(incoming).Ok? && NextReply(incoming).value.code in {200, 201}
    ensures var user := NextReply(incoming[1..]);
      InitExchange(incoming, username, password).result.Ok? <==>
        user.Ok? && ((user.value.code == 381 && NextReply(incoming[2..]).Ok? && NextReply(incoming[2..]).value.code == 281)
                     || (user.value.code != 381 && user.value.code < 400))
  {
  }

  /** With a username, USER goes first, and PASS follows only a 381. */
  lemma AuthCommands(incoming: seq<Option<string>>, username: string, password: string)
    requires !IsBlank(username)
    requires NextReply(incoming).Ok? && NextReply(incoming).value.code in {200, 201}
    ensures |InitExchange(incoming, username, password).commands| >= 1
    ensures InitExchange(incoming, username, password).commands[0] == "AUTHINFO USER " + username
    ensures (|InitExchange(incoming, username, password).commands| == 2) <==>
      NextReply(incoming[1..]).Ok? && NextReply(incoming[1..]).value.code == 381
  {
  }

  /** `newNNTPClient`'s address, checked before dialling. */
  datatype ClientError = HostRequired

  function DialAddress(host: string, port: int): (r: Result<string, ClientError>)
    ensures IsBlank(host) <==> r == Err(HostRequired)
    ensures r.Ok? ==> r.value == host + ":" + IntToString(port)
  {
    if Trim(host) == "" then Err(HostRequired) else Ok(host + ":" + IntToString(port))
  }

  // ---------------------------------------------------------------------------
  // The article check.
  // ---------------------------------------------------------------------------

  datatype CheckError =
    | EmptyMessageID
    | CommandFailed(cause: NntpError)
    | BadSequence(code: int)
    | ErrorResponse(code: int)

  /** The ID sent with STAT: trimmed, and wrapped in angle brackets unless it
      already starts with "<". */
  function NormalizeMessageID(messageID: string): (id: string)
    ensures HasPrefix(id, "<")
    ensures HasPrefix(Trim(messageID), "<") ==> id == Trim(messageID)
    ensures !HasPrefix(Trim(messageID), "<") ==> id == "<" + Trim(messageID) + ">"
  {
    var t := Trim(messageID);
    if HasPrefix(t, "<") then t else "<" + t + ">"
  }

  /** Normalising a normalised ID changes nothing. */
  lemma NormalizeMessageIDIdempotent(messageID: string)
    requires !IsBlank(messageID)
    ensures NormalizeMessageID(NormalizeMessageID(messageID)) == NormalizeMessageID(messageID)
  {
    var t := Trim(messageID);
    var id := NormalizeMessageID(messageID);
    if !HasPrefix(t, "<") {
      assert id[0] == '<' && id[|id| - 1] == '>';
    }
    TrimOfTrimmed(id);
  }

  /** The bare ID "bare@test" is sent as "<bare@test>", the case of
      backend/services/usenet/nntp_test.go:85. */
  lemma BareIDBracketed()
    ensures NormalizeMessageID("bare@test") == "<bare@test>"
  {
    TrimOfTrimmed("bare@test");
  }

  /** What a STAT reply code means. */
  function ClassifyStat(code: int): (r: Result<bool, CheckError>)
    ensures r == Ok(true) <==> code == 223
    ensures r.Err? <==> code == 503 || (code >= 400 && code !in {430, 411, 412})
    ensures code == 503 ==> r == Err(BadSequence(503))
    ensures r.Err? && code != 503 ==> r == Err(ErrorResponse(code))
  {
    if code == 223 then Ok(true)
    else if code == 430 || code == 411 || code == 412 then Ok(false)
    else if code == 503 then Err(BadSequence(code))
    else if code >= 400 then Err(ErrorResponse(code))
    else Ok(false)
  }
}

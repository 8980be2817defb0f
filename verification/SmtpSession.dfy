/**
 The command machine of one SMTP connection (section 4.1 of RFC 5321), one trimmed line at a time.
 */
module SmtpSession {
  import opened Options

  const MAX_COMMAND: nat := 1024

  const LOCAL := "@localhost"

  datatype Reply =
    | Hello(name: string)
    | Okay
    | StartInput
    | DataDone
    | Bye
    | BadMailSyntax
    | BadSyntax
    | UnknownCommand
    | MailBeforeRcpt
    | MailBeforeData
    | RcptBeforeData
    | NotLocal
    | NoRecipients
    | TooLong

  /** The reply code; the one reply that has none is counted as a rejection. */
  function Code(r: Reply): nat {
    match r
    case Hello(_) => 250
    case Okay => 250
    case StartInput => 354
    case DataDone => 250
    case Bye => 221
    case BadMailSyntax => 500
    case BadSyntax => 500
    case UnknownCommand => 500
    case MailBeforeRcpt => 503
    case MailBeforeData => 503
    case RcptBeforeData => 503
    case NotLocal => 550
    case NoRecipients => 550
    case TooLong => 500
  }

  // ----- Strings -----

  predicate IsSpace(c: char) {
    c == ' ' || '\t' <= c <= '\r'
  }

  function TrimLeft(s: string): (r: string)
    ensures |r| <= |s| && r == s[|s| - |r|..] && (r != "" ==> !IsSpace(r[0]))
  {
    if s != "" && IsSpace(s[0]) then TrimLeft(s[1..]) else s
  }

  function TrimRight(s: string): (r: string)
    ensures r <= s && (r != "" ==> !IsSpace(r[|r| - 1]))
  {
    if s != "" && IsSpace(s[|s| - 1]) then TrimRight(s[..|s| - 1]) else s
  }

  function Trim(s: string): string {
    TrimRight(TrimLeft(s))
  }

  /** A line that has been trimmed has nothing left to trim. */
  lemma TrimmedTwice(s: string)
    ensures Trim(Trim(s)) == Trim(s)
  {
    var t := Trim(s);
    if t != "" {
      assert t[0] == TrimLeft(s)[0];
    }
  }

  /** The first place of pat in s, or -1. */
  function Find(s: string, pat: string): (i: int)
    ensures i >= 0 ==> i + |pat| <= |s| && s[i..i + |pat|] == pat
    ensures -1 <= i
  {
    if pat <= s then 0
    else if s == "" then -1
    else
      var i := Find(s[1..], pat);
      if i < 0 then -1 else i + 1
  }

  function Upper(s: string): string {
    if s == "" then ""
    else [if 'a' <= s[0] <= 'z' then (s[0] as int - 32) as char else s[0]] + Upper(s[1..])
  }

  /** The string without angle brackets. */
  function Bare(s: string): string {
    if s == "" then "" else if s[0] == '<' || s[0] == '>' then Bare(s[1..]) else [s[0]] + Bare(s[1..])
  }

  predicate Bracketed(s: string) {
    s != "" && s[0] == '<' && s[|s| - 1] == '>'
  }

  // ----- The session -----

  datatype Session = Session(
    sender: string,
    valid: seq<string>,     // recipients at this host
    nonLocal: seq<string>,  // recipients elsewhere, accepted only when relaying is on
    dataMode: bool,
    inHeaders: bool,
    headers: string,
    body: string)

  datatype Mail = Mail(sender: string, valid: seq<string>, nonLocal: seq<string>, headers: string, body: string)

  /** What one line does: the next state, the reply if there is one, the message if one is complete. */
  datatype Out = Out(session: Session, reply: Option<Reply>, mail: Option<Mail>, closed: bool)

  const START := Session("", [], [], false, true, "", "")

  function Word(cmd: string): string {
    var i := Find(cmd, " ");
    Upper(if i < 0 then cmd else cmd[..i])
  }

  function Argument(cmd: string): string {
    var i := Find(cmd, " ");
    if i < 0 then "" else cmd[i + 1..]
  }

  function Say(s: Session, reply: Reply): Out {
    Out(s, Some(reply), None, false)
  }

  function MailCommand(s: Session, arg: string): Out {
    if "FROM:" <= arg then
      var sender := Trim(arg[5..]);
      if !Bracketed(sender) then
        Say(s.(sender := sender), BadMailSyntax)
      else Say(s.(sender := Bare(sender), valid := [], nonLocal := []), Okay)
    else Say(s, BadSyntax)
  }

  function RcptCommand(s: Session, arg: string, relay: bool): Out {
    if s.sender == "" then Say(s, MailBeforeRcpt)
    else if "TO:" <= arg then
      var recipient := Trim(arg[3..]);
      if !Bracketed(recipient) then Say(s, BadSyntax)
      else
        var address := Bare(recipient);
        var at := Find(address, LOCAL);
        if at < 0 || address[at..] != LOCAL then
          if relay then Say(s.(nonLocal := s.nonLocal + [address]), Okay)
          else Say(s, NotLocal)
        else Say(s.(valid := s.valid + [address]), Okay)
    else Say(s, BadSyntax)
  }

  function DataCommand(s: Session, relay: bool): Out {
    if s.sender == "" then Say(s, MailBeforeData)
    else if s.valid == [] && (!relay || s.nonLocal == []) then Say(s, RcptBeforeData)
    else Say(s.(dataMode := true, inHeaders := true, headers := "", body := ""), StartInput)
  }

  /** A line of the message. */
  function DataLine(s: Session, line: string): Session {
    if s.inHeaders then
      if Trim(line) == "" then s.(inHeaders := false)
      else if ':' !in Trim(line) then s.(inHeaders := false, body := s.body + line + "\n")
      else s.(headers := s.headers + line + "\n")
    else s.(body := s.body + line + "\n")
  }

  /** The dot that ends the message. */
  function EndOfData(s: Session): Out {
    if s.valid == [] && s.nonLocal == [] then Say(s.(dataMode := false), NoRecipients)
    else
      Out(s.(dataMode := false, valid := [], headers := "", body := ""), Some(DataDone),
          Some(Mail(s.sender, s.valid, s.nonLocal, s.headers, s.body)), false)
  }

  function Command(s: Session, cmd: string, relay: bool): Out {
    if s.dataMode then
      if cmd == "." then EndOfData(s) else Out(DataLine(s, cmd), None, None, false)
    else
      var word, arg := Word(cmd), Argument(cmd);
      if word == "HELO" then Say(s, Hello(arg))
      else if word == "MAIL" then MailCommand(s, arg)
      else if word == "RCPT" then RcptCommand(s, arg, relay)
      else if word == "DATA" then DataCommand(s, relay)
      else if word == "NOOP" then Say(s, Okay)
      else if word == "RSET" then
        Say(s.(sender := "", valid := [], headers := "", body := "", dataMode := false), Okay)
      else if word == "QUIT" then Out(s, Some(Bye), None, true)
      else Say(s, UnknownCommand)
  }

  // ----- What every command keeps -----

  ghost predicate EndsWith(s: string, pat: string) {
    |pat| <= |s| && s[|s| - |pat|..] == pat
  }

  ghost predicate Usable(sender: string, valid: seq<string>, nonLocal: seq<string>, relay: bool) {
    sender != "" && (valid != [] || (relay && nonLocal != []))
  }

  ghost predicate Safe(s: Session, relay: bool) {
    && (s.dataMode ==> Usable(s.sender, s.valid, s.nonLocal, relay))
    && (forall i :: 0 <= i < |s.valid| ==> EndsWith(s.valid[i], LOCAL))
    && (!relay ==> s.nonLocal == [])
  }

  /** In DATA mode there is a sender and a recipient, so the dot is never answered with 550. */
  lemma CommandIsSafe(s: Session, cmd: string, relay: bool)
    requires Safe(s, relay)
    ensures
      var out := Command(s, cmd, relay);
      && Safe(out.session, relay)
      && out.reply != Some(NoRecipients)
      && (out.mail.Some? ==> MailIsSafe(out.mail.value, relay))
  {
    hide Word, Argument, Trim, Bare, Bracketed, Find, EndsWith;
    if !s.dataMode && Word(cmd) == "RCPT" {
      RcptIsSafe(s, Argument(cmd), relay);
      hide RcptCommand;
    }
  }

  ghost predicate MailIsSafe(m: Mail, relay: bool) {
    && Usable(m.sender, m.valid, m.nonLocal, relay)
    && (forall i :: 0 <= i < |m.valid| ==> EndsWith(m.valid[i], LOCAL))
    && (!relay ==> m.nonLocal == [])
  }

  lemma RcptIsSafe(s: Session, arg: string, relay: bool)
    requires Safe(s, relay) && !s.dataMode
    ensures
      var out := RcptCommand(s, arg, relay);
      Safe(out.session, relay) && out.reply != Some(NoRecipients) && out.mail.None?
  {
    hide Trim, Bare, Bracketed, Find;
  }

  // ----- What goes wrong -----

  /** The command is a MAIL whose sender is not in angle brackets. */
  predicate BadSender(cmd: string) {
    Word(cmd) == "MAIL" && "FROM:" <= Argument(cmd) && !Bracketed(Trim(Argument(cmd)[5..]))
  }

  /** A rejected command changes nothing, except that a MAIL with a bad sender still sets the sender. */
  lemma RejectionKeepsState(s: Session, cmd: string, relay: bool)
    requires !s.dataMode
    ensures
      var out := Command(s, cmd, relay);
      out.reply.Some? && Code(out.reply.value) >= 500 ==> (out.session == s <==> !(BadSender(cmd) && Trim(Argument(cmd)[5..]) != s.sender))
  {
    hide Word, Argument, Trim, Bare, Bracketed, Find;
  }
}

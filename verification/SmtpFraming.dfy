/**
 One SMTP connection: bytes arrive in fragments, lines are cut out of them and obeyed.
 */
module SmtpFraming {
  import opened Options
  import opened Text
  import opened SmtpSession

  const CRLF := "\r\n"

  // ----- Lines of a stream -----

  /** The complete lines of a stream, without their CRLF. */
  function Lines(s: string): seq<string>
    decreases |s|
  {
    var i := Find(s, CRLF);
    if i < 0 then [] else [s[..i]] + Lines(s[i + 2..])
  }

  /** What is left behind the last complete line. */
  function Tail(s: string): string
    decreases |s|
  {
    var i := Find(s, CRLF);
    if i < 0 then s else Tail(s[i + 2..])
  }

  lemma {:induction false} FindAppend(a: string, b: string, pat: string)
    requires Find(a, pat) >= 0
    ensures Find(a + b, pat) == Find(a, pat)
    decreases |a|
  {
    if pat <= a {
      assert pat <= a + b;
    } else {
      FindAppend(a[1..], b, pat);
      assert (a + b)[1..] == a[1..] + b;
      assert |pat| < |a| && (a + b)[..|pat|] == a[..|pat|];
    }
  }

  /** Cutting the lines out as the bytes arrive gives the lines of the whole stream. */
  lemma {:induction false} LinesAppend(a: string, b: string)
    ensures Lines(a + b) == Lines(a) + Lines(Tail(a) + b)
    ensures Tail(a + b) == Tail(Tail(a) + b)
    decreases |a|
  {
    hide Find;
    var i := Find(a, CRLF);
    if i >= 0 {
      FindAppend(a, b, CRLF);
      assert (a + b)[..i] == a[..i] && (a + b)[i + 2..] == a[i + 2..] + b;
      LinesAppend(a[i + 2..], b);
    }
  }

  /** The buffer is taken as a C string, so a fragment ends at its first NUL. */
  function CString(fragment: string): string {
    if fragment == "" || fragment[0] == '\0' then "" else [fragment[0]] + CString(fragment[1..])
  }

  function Received(fragments: seq<string>): string {
    if fragments == [] then "" else Received(fragments[..|fragments| - 1]) + CString(fragments[|fragments| - 1])
  }

  lemma {:induction false} CStringWhole(s: string)
    requires '\0' !in s
    ensures CString(s) == s
  {
    if s != "" {
      CStringWhole(s[1..]);
      assert s == [s[0]] + s[1..];
    }
  }

  lemma {:induction false} NothingLost(fragments: seq<string>)
    requires forall i :: 0 <= i < |fragments| ==> '\0' !in fragments[i]
    ensures Received(fragments) == Concat(fragments)
    decreases |fragments|
  {
    if fragments != [] {
      NothingLost(fragments[..|fragments| - 1]);
      CStringWhole(fragments[|fragments| - 1]);
    }
  }

  // ----- Obeying lines -----

  /** A connection so far: its session, what was answered, what was sent on, whether QUIT came. */
  datatype Log = Log(session: Session, replies: seq<Reply>, mails: seq<Mail>, closed: bool)

  const BEGIN := Log(START, [], [], false)

  function AsSeq<T>(o: Option<T>): seq<T> {
    match o case None => [] case Some(x) => [x]
  }

  function Feed(l: Log, line: string, relay: bool): Log {
    var cmd := Trim(line);
    if l.closed || cmd == "" then l
    else if |cmd| > MAX_COMMAND then l.(replies := l.replies + [TooLong])
    else
      var out := Command(l.session, cmd, relay);
      Log(out.session, l.replies + AsSeq(out.reply), l.mails + AsSeq(out.mail), out.closed)
  }

  function FeedAll(l: Log, lines: seq<string>, relay: bool): Log
    decreases |lines|
  {
    if lines == [] then l else FeedAll(Feed(l, lines[0], relay), lines[1..], relay)
  }

  lemma {:induction false} FeedConcat(l: Log, xs: seq<string>, ys: seq<string>, relay: bool)
    ensures FeedAll(l, xs + ys, relay) == FeedAll(FeedAll(l, xs, relay), ys, relay)
    decreases |xs|
  {
    hide Feed;
    if xs == [] {
      assert xs + ys == ys;
    } else {
      assert (xs + ys)[1..] == xs[1..] + ys;
      FeedConcat(Feed(l, xs[0], relay), xs[1..], ys, relay);
    }
  }

  lemma {:induction false} ClosedStays(l: Log, lines: seq<string>, relay: bool)
    requires l.closed
    ensures FeedAll(l, lines, relay) == l
    decreases |lines|
  {
    hide Command, Trim;
    if lines != [] {
      ClosedStays(l, lines[1..], relay);
    }
  }

  // ----- The connection -----

  class Connection {
    var finalBuf: string
    var senderEmail: string
    var validRecipients: seq<string>
    var nonLocalRecipients: seq<string>
    var isDataRecptMode: bool
    var inHeaderSection: bool
    var headersBlock: string
    var bodyBlock: string
    var replies: seq<Reply>
    var mails: seq<Mail>
    var closed: bool

    constructor ()
      ensures finalBuf == "" && State() == BEGIN
    {
      finalBuf := "";
      senderEmail, validRecipients, nonLocalRecipients := "", [], [];
      isDataRecptMode, inHeaderSection, headersBlock, bodyBlock := false, true, "", "";
      replies, mails, closed := [], [], false;
    }

    ghost function Current(): Session
      reads this
    {
      Session(senderEmail, validRecipients, nonLocalRecipients, isDataRecptMode, inHeaderSection, headersBlock, bodyBlock)
    }

    ghost function State(): Log
      reads this
    {
      Log(Current(), replies, mails, closed)
    }

    method Send(r: Reply)
      modifies this`replies
      ensures replies == old(replies) + [r]
    {
      replies := replies + [r];
    }

    /** The line is a message line, or the dot that ends the message. */
    method InData(cmd: string)
      requires isDataRecptMode && !closed
      modifies this
      ensures finalBuf == old(finalBuf)
      ensures
        var out := if cmd == "." then EndOfData(old(Current())) else Out(DataLine(old(Current()), cmd), None, None, false);
        State() == Log(out.session, old(replies) + AsSeq(out.reply), old(mails) + AsSeq(out.mail), out.closed)
    {
      hide Trim;
      if cmd == "." {
        isDataRecptMode := false;
        if validRecipients == [] && nonLocalRecipients == [] {
          Send(NoRecipients);
        } else {
          mails := mails + [Mail(senderEmail, validRecipients, nonLocalRecipients, headersBlock, bodyBlock)];
          validRecipients, headersBlock, bodyBlock := [], "", "";
          Send(DataDone);
        }
      } else if inHeaderSection {
        var trimmed := Trim(cmd);
        if trimmed == "" {
          inHeaderSection := false;
        } else if ':' !in trimmed {
          inHeaderSection := false;
          bodyBlock := bodyBlock + cmd + "\n";
        } else {
          headersBlock := headersBlock + cmd + "\n";
        }
      } else {
        bodyBlock := bodyBlock + cmd + "\n";
      }
    }

    method DoMail(arg: string)
      requires !closed
      modifies this
      ensures finalBuf == old(finalBuf)
      ensures
        var out := MailCommand(old(Current()), arg);
        State() == Log(out.session, old(replies) + AsSeq(out.reply), old(mails) + AsSeq(out.mail), out.closed)
    {
      hide Trim, Bare;
      if "FROM:" <= arg {
        senderEmail := Trim(arg[5..]);
        if !Bracketed(senderEmail) {
          Send(BadMailSyntax);
        } else {
          senderEmail := Bare(senderEmail);
          validRecipients, nonLocalRecipients := [], [];
          Send(Okay);
        }
      } else {
        Send(BadSyntax);
      }
    }

    method DoRcpt(arg: string, relay: bool)
      requires !closed
      modifies this
      ensures finalBuf == old(finalBuf)
      ensures
        var out := RcptCommand(old(Current()), arg, relay);
        State() == Log(out.session, old(replies) + AsSeq(out.reply), old(mails) + AsSeq(out.mail), out.closed)
    {
      hide Trim, Bare;
      if senderEmail == "" {
        Send(MailBeforeRcpt);
      } else if "TO:" <= arg {
        var recipientEmail := Trim(arg[3..]);
        if !Bracketed(recipientEmail) {
          Send(BadSyntax);
        } else {
          recipientEmail := Bare(recipientEmail);
          var pos := Find(recipientEmail, LOCAL);
          hide Find;
          if pos < 0 || recipientEmail[pos..] != LOCAL {
            if relay {
              nonLocalRecipients := nonLocalRecipients + [recipientEmail];
              Send(Okay);
            } else {
              Send(NotLocal);
            }
          } else {
            validRecipients := validRecipients + [recipientEmail];
            Send(Okay);
          }
        }
      } else {
        Send(BadSyntax);
      }
    }

    method DoData(relay: bool)
      requires !closed
      modifies this
      ensures finalBuf == old(finalBuf)
      ensures
        var out := DataCommand(old(Current()), relay);
        State() == Log(out.session, old(replies) + AsSeq(out.reply), old(mails) + AsSeq(out.mail), out.closed)
    {
      if senderEmail == "" {
        Send(MailBeforeData);
      } else if validRecipients == [] && (!relay || nonLocalRecipients == []) {
        Send(RcptBeforeData);
      } else {
        isDataRecptMode, inHeaderSection, headersBlock, bodyBlock := true, true, "", "";
        Send(StartInput);
      }
    }

    /** One line, from the raw bytes before its CRLF. */
    method Obey(line: string, relay: bool)
      requires !closed
      modifies this
      ensures finalBuf == old(finalBuf)
      ensures State() == Feed(old(State()), line, relay)
    {
      hide Trim, Word, Argument, MailCommand, RcptCommand, DataCommand, DataLine, EndOfData;
      var cmd := Trim(line);
      if cmd == "" {
        return;
      }
      if |cmd| > MAX_COMMAND {
        Send(TooLong);
        return;
      }
      if isDataRecptMode {
        InData(cmd);
      } else {
        Outside(cmd, relay);
      }
    }

    /** A command outside a message. */
    method Outside(cmd: string, relay: bool)
      requires !isDataRecptMode && !closed
      modifies this
      ensures finalBuf == old(finalBuf)
      ensures
        var out := Command(old(Current()), cmd, relay);
        State() == Log(out.session, old(replies) + AsSeq(out.reply), old(mails) + AsSeq(out.mail), out.closed)
    {
      hide Word, Argument, MailCommand, RcptCommand, DataCommand, DataLine, EndOfData;
      var word, arg := Word(cmd), Argument(cmd);
      if word == "HELO" {
        Send(Hello(arg));
      } else if word == "MAIL" {
        DoMail(arg);
      } else if word == "RCPT" {
        DoRcpt(arg, relay);
      } else if word == "DATA" {
        DoData(relay);
      } else if word == "NOOP" {
        Send(Okay);
      } else if word == "RSET" {
        senderEmail, validRecipients, headersBlock, bodyBlock, isDataRecptMode := "", [], "", "", false;
        Send(Okay);
      } else if word == "QUIT" {
        Send(Bye);
        closed := true;
      } else {
        Send(UnknownCommand);
      }
    }

    /** One fragment: its lines are obeyed, up to QUIT, and an incomplete line is kept for later. */
    method Receive(fragment: string, relay: bool)
      requires !closed
      modifies this
      ensures State() == FeedAll(old(State()), Lines(old(finalBuf) + CString(fragment)), relay)
      ensures !closed ==> finalBuf == Tail(old(finalBuf) + CString(fragment))
    {
      hide Find, Feed, CString;
      finalBuf := finalBuf + CString(fragment);
      ghost var l, all := State(), finalBuf;
      var position := Find(finalBuf, CRLF);
      while position >= 0
        invariant !closed && position == Find(finalBuf, CRLF)
        invariant FeedAll(State(), Lines(finalBuf), relay) == FeedAll(l, Lines(all), relay)
        invariant Tail(finalBuf) == Tail(all)
        decreases |finalBuf|
      {
        ghost var before := State();
        ghost var rest := Lines(finalBuf[position + 2..]);
        assert Lines(finalBuf)[0] == finalBuf[..position] && Lines(finalBuf)[1..] == rest;
        var currentCommand := finalBuf[..position];
        finalBuf := finalBuf[position + 2..];
        Obey(currentCommand, relay);
        if closed {
          ClosedStays(State(), rest, relay);
          return;
        }
        position := Find(finalBuf, CRLF);
      }
    }
  }

  /**
   A whole connection. What is answered, sent on and remembered is a function of the bytes received
   alone: how they were cut into fragments makes no difference.
   */
  method HandleClient(fragments: seq<string>, relay: bool) returns (c: Connection)
    ensures c.State() == FeedAll(BEGIN, Lines(Received(fragments)), relay)
    ensures (forall i :: 0 <= i < |fragments| ==> '\0' !in fragments[i]) ==>
              c.State() == FeedAll(BEGIN, Lines(Concat(fragments)), relay)
    ensures LogIsSafe(c.State(), relay)
  {
    hide Lines, Tail, FeedAll, CString, LogIsSafe;
    c := new Connection();
    assert Lines("") == [] && Tail("") == "" && FeedAll(BEGIN, [], relay) == BEGIN by { EmptyStream(relay); }
    var k := 0;
    while k < |fragments|
      invariant k <= |fragments| && fresh(c) && !c.closed
      invariant c.State() == FeedAll(BEGIN, Lines(Received(fragments[..k])), relay)
      invariant c.finalBuf == Tail(Received(fragments[..k]))
    {
      ghost var sofar, l := Received(fragments[..k]), c.State();
      assert fragments[..k + 1][..k] == fragments[..k];
      LinesAppend(sofar, CString(fragments[k]));
      FeedConcat(BEGIN, Lines(sofar), Lines(Tail(sofar) + CString(fragments[k])), relay);
      c.Receive(fragments[k], relay);
      k := k + 1;
      if c.closed {
        break;
      }
    }
    ClosedOrDone(c.State(), fragments, k, relay);
    BeginIsSafe(relay);
    SessionIsSafe(BEGIN, Lines(Received(fragments)), relay);
    if forall i :: 0 <= i < |fragments| ==> '\0' !in fragments[i] {
      NothingLost(fragments);
    }
  }

  lemma EmptyStream(relay: bool)
    ensures Lines("") == [] && Tail("") == "" && FeedAll(BEGIN, [], relay) == BEGIN
  {
  }

  /** Nothing that comes after QUIT counts. */
  lemma {:induction false} ClosedOrDone(l: Log, fragments: seq<string>, k: nat, relay: bool)
    requires k <= |fragments| && (k < |fragments| ==> l.closed) && l == FeedAll(BEGIN, Lines(Received(fragments[..k])), relay)
    ensures l == FeedAll(BEGIN, Lines(Received(fragments)), relay)
    decreases |fragments| - k
  {
    hide Lines, Tail, FeedAll, CString;
    if k == |fragments| {
      assert fragments[..k] == fragments;
    } else {
      var sofar, next := Received(fragments[..k]), CString(fragments[k]);
      assert fragments[..k + 1][..k] == fragments[..k];
      LinesAppend(sofar, next);
      FeedConcat(BEGIN, Lines(sofar), Lines(Tail(sofar) + next), relay);
      ClosedStays(l, Lines(Tail(sofar) + next), relay);
      ClosedOrDone(l, fragments, k + 1, relay);
    }
  }

  // ----- Safety over whole sessions -----

  ghost predicate LogIsSafe(l: Log, relay: bool) {
    && Safe(l.session, relay)
    && NoRecipients !in l.replies
    && forall i :: 0 <= i < |l.mails| ==> MailIsSafe(l.mails[i], relay)
  }

  /** Whatever the client sends, in every state: no 550 at the end of DATA, no message without sender or recipient. */
  lemma {:induction false} SessionIsSafe(l: Log, lines: seq<string>, relay: bool)
    requires LogIsSafe(l, relay)
    ensures LogIsSafe(FeedAll(l, lines, relay), relay)
    decreases |lines|
  {
    if lines != [] {
      FeedIsSafe(l, lines[0], relay);
      hide LogIsSafe, Feed;
      SessionIsSafe(Feed(l, lines[0], relay), lines[1..], relay);
    }
  }

  lemma BeginIsSafe(relay: bool)
    ensures LogIsSafe(BEGIN, relay)
  {
  }

  lemma FeedIsSafe(l: Log, line: string, relay: bool)
    requires LogIsSafe(l, relay)
    ensures LogIsSafe(Feed(l, line, relay), relay)
  {
    hide Command, Trim, Safe, MailIsSafe;
    var l' := Feed(l, line, relay);
    CommandIsSafe(l.session, Trim(line), relay);
    forall i | 0 <= i < |l'.mails| ensures MailIsSafe(l'.mails[i], relay) {
      assert i < |l.mails| ==> l'.mails[i] == l.mails[i];
    }
  }

  // ----- The message -----

  /** The lines of a message that reach it: trimmed, not blank, not too long. */
  function Accepted(lines: seq<string>): seq<string> {
    if lines == [] then []
    else
      var cmd := Trim(lines[0]);
      (if cmd == "" || |cmd| > MAX_COMMAND then [] else [cmd]) + Accepted(lines[1..])
  }

  function MessageText(lines: seq<string>): string {
    if lines == [] then "" else lines[0] + "\n" + MessageText(lines[1..])
  }

  /** How many lines come before the first that has no colon. */
  function HeaderCount(lines: seq<string>): (n: nat)
    ensures n <= |lines|
  {
    if lines == [] || ':' !in lines[0] then 0 else 1 + HeaderCount(lines[1..])
  }

  /** Header lines go to the headers until one has no colon; that one and all after it are the body. */
  lemma {:induction false} MessageLines(l: Log, lines: seq<string>, relay: bool)
    requires !l.closed && l.session.dataMode && forall i :: 0 <= i < |lines| ==> Trim(lines[i]) != "."
    ensures
      var l', acc := FeedAll(l, lines, relay), Accepted(lines);
      var n := if l.session.inHeaders then HeaderCount(acc) else 0;
      && !l'.closed && l'.mails == l.mails
      && l'.session == l.session.(inHeaders := l.session.inHeaders && n == |acc|,
                                  headers := l.session.headers + MessageText(acc[..n]), body := l.session.body + MessageText(acc[n..]))
    decreases |lines|
  {
    if lines == [] {
      assert l.session.headers + "" == l.session.headers && l.session.body + "" == l.session.body;
    } else {
      var l1 := Feed(l, lines[0], relay);
      OneLine(l, lines[0], relay);
      MessageLines(l1, lines[1..], relay);
      var cmd, rest := Trim(lines[0]), Accepted(lines[1..]);
      hide Trim, Feed, Command;
      if cmd != "" && |cmd| <= MAX_COMMAND {
        var acc := [cmd] + rest;
        assert acc[1..] == rest && acc[0] == cmd;
        TextAfter(l.session, l1.session, cmd, rest);
      } else {
        assert Accepted(lines) == rest;
      }
    }
  }

  lemma OneLine(l: Log, line: string, relay: bool)
    requires !l.closed && l.session.dataMode && Trim(line) != "."
    ensures
      var l', cmd := Feed(l, line, relay), Trim(line);
      && !l'.closed && l'.mails == l.mails && l'.session.dataMode
      && l'.session ==
         if cmd == "" || |cmd| > MAX_COMMAND then l.session
         else if l.session.inHeaders && ':' in cmd then l.session.(headers := l.session.headers + cmd + "\n")
         else l.session.(inHeaders := false, body := l.session.body + cmd + "\n")
  {
    TrimmedTwice(line);
    hide Trim;
  }

  lemma TextAfter(s: Session, s1: Session, cmd: string, rest: seq<string>)
    requires s1 == if s.inHeaders && ':' in cmd then s.(headers := s.headers + cmd + "\n") else s.(inHeaders := false, body := s.body + cmd + "\n")
    ensures
      var acc := [cmd] + rest;
      var n, m := if s.inHeaders then HeaderCount(acc) else 0, if s1.inHeaders then HeaderCount(rest) else 0;
      && s1.headers + MessageText(rest[..m]) == s.headers + MessageText(acc[..n])
      && s1.body + MessageText(rest[m..]) == s.body + MessageText(acc[n..])
      && ((s1.inHeaders && m == |rest|) <==> (s.inHeaders && n == |acc|))
  {
    var acc := [cmd] + rest;
    assert acc[0] == cmd && acc[1..] == rest;
    var m := if s1.inHeaders then HeaderCount(rest) else 0;
    if s.inHeaders && ':' in cmd {
      assert acc[..m + 1][1..] == rest[..m] && acc[m + 1..] == rest[m..];
    } else {
      assert acc[0..] == acc && rest[0..] == rest;
    }
  }

  /**
   A complete message: after an accepted DATA, the lines up to the dot go out once, in order, none
   lost and none twice, to the recipients named before.
   */
  lemma MessageIsWhole(l: Log, data: string, lines: seq<string>, dot: string, relay: bool)
    requires !l.closed && !l.session.dataMode && Trim(dot) == "." && forall i :: 0 <= i < |lines| ==> Trim(lines[i]) != "."
    requires Feed(l, data, relay).session.dataMode && Safe(l.session, relay)
    ensures
      var l', acc := FeedAll(l, [data] + lines + [dot], relay), Accepted(lines);
      var n := HeaderCount(acc);
      && l'.mails == l.mails + [Mail(l.session.sender, l.session.valid, l.session.nonLocal, MessageText(acc[..n]), MessageText(acc[n..]))]
      && MessageText(acc[..n]) + MessageText(acc[n..]) == MessageText(acc)
  {
    hide *;
    var l1 := Feed(l, data, relay);
    DataStarts(l, data, relay);
    var l2, acc := FeedAll(l1, lines, relay), Accepted(lines);
    MessageLines(l1, lines, relay);
    var head, tail := MessageText(acc[..HeaderCount(acc)]), MessageText(acc[HeaderCount(acc)..]);
    assert "" + head == head && "" + tail == tail;
    DotEnds(l2, dot, relay);
    FeedFirst(l, data, lines + [dot], relay);
    FeedConcat(l1, lines, [dot], relay);
    OneFed(l2, dot, relay);
    assert [data] + (lines + [dot]) == [data] + lines + [dot];
    TextSplits(acc, HeaderCount(acc));
  }

  lemma FeedFirst(l: Log, line: string, lines: seq<string>, relay: bool)
    ensures FeedAll(l, [line] + lines, relay) == FeedAll(Feed(l, line, relay), lines, relay)
  {
    hide Feed;
    assert ([line] + lines)[1..] == lines;
  }

  lemma DotEnds(l: Log, dot: string, relay: bool)
    requires !l.closed && l.session.dataMode && Trim(dot) == "." && (l.session.valid != [] || l.session.nonLocal != [])
    ensures
      var s := l.session;
      Feed(l, dot, relay).mails == l.mails + [Mail(s.sender, s.valid, s.nonLocal, s.headers, s.body)]
  {
    hide Trim;
  }

  lemma OneFed(l: Log, line: string, relay: bool)
    ensures FeedAll(l, [line], relay) == Feed(l, line, relay)
  {
    hide Feed;
    assert [line][1..] == [];
  }

  lemma DataStarts(l: Log, data: string, relay: bool)
    requires !l.closed && !l.session.dataMode && Feed(l, data, relay).session.dataMode && Safe(l.session, relay)
    ensures
      var l1 := Feed(l, data, relay);
      && !l1.closed && l1.mails == l.mails
      && l1.session == l.session.(dataMode := true, inHeaders := true, headers := "", body := "")
      && (l.session.valid != [] || l.session.nonLocal != [])
  {
    hide Trim, Word, Argument, Find, Bare, Bracketed;
  }

  /**
   After a message, a DATA command without a new MAIL or RCPT is accepted exactly when the message had
   external recipients: they outlive it.
   */
  lemma NextDataAfterMessage(l: Log, dot: string, data: string, relay: bool)
    requires !l.closed && l.session.dataMode && Safe(l.session, relay) && Trim(dot) == "."
    requires Trim(data) != "" && |Trim(data)| <= MAX_COMMAND && Word(Trim(data)) == "DATA"
    ensures FeedAll(l, [dot, data], relay).session.dataMode <==> relay && l.session.nonLocal != []
  {
    var l1 := Feed(l, dot, relay);
    assert l1.session == l.session.(dataMode := false, valid := [], headers := "", body := "") && !l1.closed by {
      hide Trim, EndsWith;
    }
    assert [dot, data] == [dot] + [data];
    hide Trim, Word, Find, EndsWith;
    FeedFirst(l, dot, [data], relay);
    OneFed(l1, data, relay);
    hide FeedAll;
  }

  /** The text of all lines is the headers followed by the body. */
  lemma {:induction false} TextSplits(lines: seq<string>, n: nat)
    requires n <= |lines|
    ensures MessageText(lines[..n]) + MessageText(lines[n..]) == MessageText(lines)
    decreases n
  {
    if n > 0 {
      TextSplits(lines[1..], n - 1);
      assert lines[..n][1..] == lines[1..][..n - 1] && lines[n..] == lines[1..][n - 1..];
    }
  }

  // ----- A rejected sender that stays -----

  lemma {:induction false} FindSpace(a: string, b: string)
    requires ' ' !in a
    ensures Find(a + " " + b, " ") == |a|
    decreases |a|
  {
    var s := a + " " + b;
    if a == "" {
      assert s[0] == ' ' && " " <= s;
    } else {
      assert s[0] == a[0] && a[0] in a;
      assert s[1..] == a[1..] + " " + b;
      FindSpace(a[1..], b);
    }
  }

  lemma TrimNothing(s: string)
    requires s != "" && !IsSpace(s[0]) && !IsSpace(s[|s| - 1])
    ensures Trim(s) == s
  {
  }

  lemma WordAndArgument(word: string, arg: string)
    requires ' ' !in word
    ensures Word(word + " " + arg) == Upper(word) && Argument(word + " " + arg) == arg
  {
    var cmd := word + " " + arg;
    FindSpace(word, arg);
    assert cmd[..|word|] == word && cmd[|word| + 1..] == arg;
    hide Find;
  }

  /** An address without angle brackets. */
  ghost predicate Unbracketed(x: string) {
    x != "" && !IsSpace(x[0]) && !IsSpace(x[|x| - 1]) && !Bracketed(x) && |x| <= 1000
  }

  /** MAIL FROM: with such an address is answered with 500, and the address becomes the sender. */
  lemma BadSenderSticks(l: Log, x: string, relay: bool)
    requires !l.closed && !l.session.dataMode && Unbracketed(x)
    ensures
      var l' := Feed(l, "MAIL" + " " + ("FROM:" + x), relay);
      l'.session == l.session.(sender := x) && l'.replies == l.replies + AsSeq(Some(BadMailSyntax)) && !l'.closed
  {
    var arg := "FROM:" + x;
    var cmd := "MAIL" + " " + arg;
    hide *;
    SenderLine(x, arg, cmd);
    FeedIsCommand(l, cmd, relay);
    CommandIsMail(l.session, cmd, relay);
    MailIsRefused(l.session, arg, x);
  }

  lemma SenderLine(x: string, arg: string, cmd: string)
    requires Unbracketed(x) && arg == "FROM:" + x && cmd == "MAIL" + " " + arg
    ensures Trim(cmd) == cmd && 0 < |cmd| <= MAX_COMMAND && Word(cmd) == "MAIL" && Argument(cmd) == arg && !Bracketed(x) && Trim(x) == x
  {
    assert |cmd| == |x| + 10 && cmd[0] == 'M' && cmd[|cmd| - 1] == arg[|arg| - 1] == x[|x| - 1];
    hide Trim, Word, Argument, Bracketed, Find;
    TrimNothing(cmd);
    TrimNothing(x);
    WordAndArgument("MAIL", arg);
    UpperMail();
  }

  lemma UpperMail()
    ensures Upper("MAIL") == "MAIL"
  {
  }

  lemma FeedIsCommand(l: Log, cmd: string, relay: bool)
    requires !l.closed && Trim(cmd) == cmd && 0 < |cmd| <= MAX_COMMAND
    ensures
      var out := Command(l.session, cmd, relay);
      Feed(l, cmd, relay) == Log(out.session, l.replies + AsSeq(out.reply), l.mails + AsSeq(out.mail), out.closed)
  {
    hide Command, Trim;
  }

  lemma CommandIsMail(s: Session, cmd: string, relay: bool)
    requires !s.dataMode && Word(cmd) == "MAIL"
    ensures Command(s, cmd, relay) == MailCommand(s, Argument(cmd))
  {
    assert "MAIL"[0] == 'M' && "HELO"[0] == 'H';
    hide Word, Argument, MailCommand, RcptCommand, DataCommand;
  }

  lemma MailIsRefused(s: Session, arg: string, x: string)
    requires arg == "FROM:" + x && Trim(x) == x && !Bracketed(x)
    ensures MailCommand(s, arg) == Out(s.(sender := x), Some(BadMailSyntax), None, false)
  {
    assert "FROM:" <= arg && arg[5..] == x;
    hide Trim, Bracketed, Bare;
  }

  /** With a recipient named before, a message then goes out under a sender that was refused. */
  lemma RefusedSenderIsUsed(l: Log, x: string, relay: bool)
    requires !l.closed && !l.session.dataMode && Unbracketed(x) && l.session.valid != []
    ensures
      var l' := FeedAll(l, ["MAIL" + " " + ("FROM:" + x), "DATA" + " " + ""], relay);
      l'.session.dataMode && l'.session.sender == x && l'.session.valid == l.session.valid
  {
    var mail, data := "MAIL" + " " + ("FROM:" + x), "DATA" + " " + "";
    assert [mail, data] == [mail] + [data] && x != "";
    hide *;
    var l1 := Feed(l, mail, relay);
    BadSenderSticks(l, x, relay);
    FeedFirst(l, mail, [data], relay);
    OneFed(l1, data, relay);
    DataLineOnly();
    FeedData(l1, data, relay);
  }

  lemma FeedData(l: Log, line: string, relay: bool)
    requires !l.closed && !l.session.dataMode && Trim(line) == "DATA" && Word("DATA") == "DATA" && l.session.sender != "" && l.session.valid != []
    ensures Feed(l, line, relay).session == l.session.(dataMode := true, inHeaders := true, headers := "", body := "")
  {
    assert "DATA"[0] == 'D' && "HELO"[0] == 'H' && "MAIL"[0] == 'M' && "RCPT"[0] == 'R';
    hide Trim, Word, Argument, MailCommand, RcptCommand;
  }

  lemma DataLineOnly()
    ensures Trim("DATA" + " " + "") == "DATA" && Word("DATA") == "DATA"
  {
    var s := "DATA" + " " + "";
    assert |s| == 5 && s[0] == 'D' && s[3] == 'A' && s[4] == ' ' && s[..4] == "DATA";
    TrimOneSpace(s);
    NoSpaceIn("DATA");
    assert Upper("DATA") == "DATA";
  }

  lemma TrimOneSpace(s: string)
    requires |s| >= 2 && !IsSpace(s[0]) && s[|s| - 1] == ' ' && !IsSpace(s[|s| - 2])
    ensures Trim(s) == s[..|s| - 1]
  {
    var r := s[..|s| - 1];
    assert TrimLeft(s) == s;
    assert r != "" && r[|r| - 1] == s[|s| - 2];
    assert TrimRight(r) == r;
  }

  lemma {:induction false} NoSpaceIn(a: string)
    requires ' ' !in a
    ensures Find(a, " ") == -1
    decreases |a|
  {
    if a != "" {
      assert a[0] != ' ';
      NoSpaceIn(a[1..]);
    }
  }
}

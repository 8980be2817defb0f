/**
 From the SMTP session to the mailboxes: what the server writes at the end of DATA.
 */
module MailDelivery {
  import opened Text
  import S = SmtpSession
  import opened Mailbox

  const SUBJECT := "Subject:"

  /** The first header line that starts with the word, trimmed behind it. */
  function SubjectOf(headers: string): string {
    FirstSubject(Split(headers, '\n'))
  }

  function FirstSubject(lines: seq<string>): string {
    if lines == [] then "No Subject"
    else if StartsWith(lines[0], SUBJECT) then S.Trim(lines[0][|SUBJECT|..])
    else FirstSubject(lines[1..])
  }

  method FindSubject(headers: string) returns (subject: string)
    ensures subject == SubjectOf(headers)
  {
    hide Split;
    var lines := SplitString(headers, '\n');
    for i := 0 to |lines|
      invariant FirstSubject(lines[i..]) == SubjectOf(headers)
    {
      assert lines[i..][0] == lines[i] && lines[i..][1..] == lines[i + 1..];
      if StartsWith(lines[i], SUBJECT) {
        return S.Trim(lines[i][|SUBJECT|..]);
      }
    }
    return "No Subject";
  }

  function HeaderFor(m: S.Mail, i: nat, timestamp: string): Header
    requires i < |m.valid|
  {
    Header(m.sender, m.valid[i], SubjectOf(m.headers), timestamp)
  }

  /** One delivery for each local recipient, in the order they were named. */
  function Deliveries(m: S.Mail, timestamp: string): (rs: seq<Request>)
    ensures |rs| == |m.valid| && forall i :: 0 <= i < |rs| ==> rs[i] == Accept(HeaderFor(m, i, timestamp), m.body)
  {
    seq(|m.valid|, i requires 0 <= i < |m.valid| => Accept(HeaderFor(m, i, timestamp), m.body))
  }

  lemma {:induction false} AfterAllSnoc(rows: Rows, rs: seq<Request>, r: Request)
    ensures AfterAll(rows, rs + [r]) == After(AfterAll(rows, rs), r)
    decreases |rs|
  {
    hide After;
    if rs == [] {
      assert rs + [r] == [r];
      OneRequest(rows, r);
    } else {
      assert (rs + [r])[1..] == rs[1..] + [r];
      AfterAllSnoc(After(rows, rs[0]), rs[1..], r);
    }
  }

  /** How relaying to one recipient ended: `reason` is empty where the message went out. */
  datatype Relay = Relay(reason: string, timestamp: string)

  /** The failure notices for the external recipients; an address without an @ is skipped. */
  function Notices(m: S.Mail, relays: seq<Relay>): (rs: seq<Request>)
    requires |relays| == |m.nonLocal|
    ensures forall i :: 0 <= i < |rs| ==> rs[i].Notify?
  {
    NoticesOf(m.sender, m.nonLocal, relays)
  }

  function NoticesOf(sender: string, to: seq<string>, relays: seq<Relay>): (rs: seq<Request>)
    requires |relays| == |to|
    ensures forall i :: 0 <= i < |rs| ==> rs[i].Notify?
  {
    if to == [] then []
    else
      var n := |to| - 1;
      NoticesOf(sender, to[..n], relays[..n]) + NoticeOf(sender, to[n], relays[n])
  }

  function NoticeOf(sender: string, to: string, r: Relay): (rs: seq<Request>)
    ensures forall i :: 0 <= i < |rs| ==> rs[i].Notify?
  {
    if '@' in to && r.reason != "" then [Notify(sender, to, r.reason, r.timestamp)] else []
  }

  /** The delivery loop. */
  method DeliverLocally(service: EmailService, m: S.Mail, timestamp: string)
    modifies service
    ensures service.rows == AfterAll(old(service.rows), Deliveries(m, timestamp))
  {
    hide After, SubjectOf;
    var subject := FindSubject(m.headers);
    ghost var rs := Deliveries(m, timestamp);
    assert AfterAll(service.rows, rs[..0]) == service.rows;
    hide AfterAll;
    for i := 0 to |m.valid|
      invariant service.rows == AfterAll(old(service.rows), rs[..i])
    {
      AfterAllSnoc(old(service.rows), rs[..i], rs[i]);
      assert rs[..i + 1] == rs[..i] + [rs[i]];
      service.AcceptMail(Header(m.sender, m.valid[i], subject, timestamp), m.body);
    }
    assert rs[..|rs|] == rs;
  }

  /** The relaying loop, as far as it touches mailboxes. */
  method RelayMail(service: EmailService, m: S.Mail, relays: seq<Relay>)
    requires |relays| == |m.nonLocal|
    modifies service
    ensures service.rows == AfterAll(old(service.rows), Notices(m, relays))
  {
    hide After;
    var to := m.nonLocal;
    assert AfterAll(service.rows, []) == service.rows;
    for i := 0 to |to|
      invariant service.rows == AfterAll(old(service.rows), NoticesOf(m.sender, to[..i], relays[..i]))
    {
      assert to[..i + 1][..i] == to[..i] && relays[..i + 1][..i] == relays[..i];
      hide AfterAll;
      ghost var before := NoticesOf(m.sender, to[..i], relays[..i]);
      if '@' !in to[i] {
        assert before + [] == before;
        continue;
      }
      if relays[i].reason != "" {
        AfterAllSnoc(old(service.rows), before, Notify(m.sender, to[i], relays[i].reason, relays[i].timestamp));
        service.SendDeliveryFailure(m.sender, to[i], relays[i].reason, relays[i].timestamp);
      } else {
        assert before + [] == before;
      }
    }
    assert to[..|to|] == to && relays[..|to|] == relays;
  }

  /** The end of DATA: local deliveries, then relaying where it is switched on. */
  function AtTheDot(m: S.Mail, timestamp: string, relay: bool, relays: seq<Relay>): seq<Request>
    requires |relays| == |m.nonLocal|
  {
    Deliveries(m, timestamp) + if relay then Notices(m, relays) else []
  }

  lemma {:induction false} AfterAllConcat(rows: Rows, rs: seq<Request>, more: seq<Request>)
    ensures AfterAll(rows, rs + more) == AfterAll(AfterAll(rows, rs), more)
    decreases |rs|
  {
    hide After;
    if rs == [] {
      assert rs + more == more;
    } else {
      assert (rs + more)[1..] == rs[1..] + more;
      AfterAllConcat(After(rows, rs[0]), rs[1..], more);
    }
  }

  method DeliverMail(service: EmailService, m: S.Mail, timestamp: string, relay: bool, relays: seq<Relay>)
    requires |relays| == |m.nonLocal|
    modifies service
    ensures service.rows == AfterAll(old(service.rows), AtTheDot(m, timestamp, relay, relays))
  {
    hide After, AfterAll, Deliveries, Notices;
    AfterAllConcat(service.rows, Deliveries(m, timestamp), Notices(m, relays));
    assert Deliveries(m, timestamp) + [] == Deliveries(m, timestamp);
    DeliverLocally(service, m, timestamp);
    if relay {
      RelayMail(service, m, relays);
    }
  }

  /** A message without commas in its fields leaves every index in agreement, also where relaying fails. */
  lemma DeliveredMailAgrees(rows: Rows, m: S.Mail, timestamp: string, relay: bool, relays: seq<Relay>)
    requires |relays| == |m.nonLocal| && AllAgree(rows)
    requires forall i :: 0 <= i < |m.valid| ==> Lacks(HeaderFor(m, i, timestamp), ',')
    requires ',' !in m.sender && forall i :: 0 <= i < |relays| ==> ',' !in m.nonLocal[i] && ',' !in relays[i].timestamp
    ensures AllAgree(AfterAll(rows, AtTheDot(m, timestamp, relay, relays)))
  {
    NoticesPlain(m.sender, m.nonLocal, relays);
    hide AllAgree, AfterAll, SubjectOf, Lacks, NoticesOf;
    RunAgrees(rows, AtTheDot(m, timestamp, relay, relays));
  }

  lemma {:induction false} NoticesPlain(sender: string, to: seq<string>, relays: seq<Relay>)
    requires |relays| == |to| && ',' !in sender && forall i :: 0 <= i < |to| ==> ',' !in to[i] && ',' !in relays[i].timestamp
    ensures forall i :: 0 <= i < |NoticesOf(sender, to, relays)| ==> Plain(NoticesOf(sender, to, relays)[i])
    decreases |to|
  {
    hide Lacks;
    if to != [] {
      var n := |to| - 1;
      NoticesPlain(sender, to[..n], relays[..n]);
      NoticeLacks(sender, to[n], relays[n].timestamp);
    }
  }

  lemma NoticeLacks(sender: string, failed: string, timestamp: string)
    requires ',' !in sender && ',' !in failed && ',' !in timestamp
    ensures Lacks(NoticeHeader(sender, failed, timestamp), ',')
  {
    assert ',' !in "mailer-daemon@localhost" && ',' !in "Delivery Failed to ";
  }
}

/**
 Mailboxes: each message is a column of its mailbox row, and the column "meta" lists the messages.
 */
module Mailbox {
  import opened Text
  import opened FileTree
  import opened KvRow

  const META := "meta"

  // ----- Message ids -----

  datatype Header = Header(sender: string, recipient: string, subject: string, timestamp: string)

  function Field(key: string, value: string): string {
    key + ":" + value + ";"
  }

  function CreateMetadata(h: Header): string {
    Field("sender", h.sender) + (Field("recipient", h.recipient) + (Field("subject", h.subject) + Field("timestamp", h.timestamp)))
  }

  function Reverse(s: string): (r: string)
    ensures |r| == |s| && forall i :: 0 <= i < |s| ==> r[i] == s[|s| - 1 - i]
  {
    if s == "" then "" else Reverse(s[1..]) + [s[0]]
  }

  /** The id of a message: its header fields, "encrypted" by reversing them. */
  function Id(h: Header): string {
    Reverse(CreateMetadata(h))
  }

  lemma ReverseTwice(s: string)
    ensures Reverse(Reverse(s)) == s
  {
    hide Reverse;
  }

  lemma ReverseHas(s: string, c: char)
    ensures c in Reverse(s) <==> c in s
  {
    hide Reverse;
    var r := Reverse(s);
    if c in s {
      var i :| 0 <= i < |s| && s[i] == c;
      assert r[|s| - 1 - i] == c;
    }
  }

  predicate Lacks(h: Header, c: char) {
    c !in h.sender && c !in h.recipient && c !in h.subject && c !in h.timestamp
  }

  /** An id cannot be taken for an error text, and it holds a comma only when a field does. */
  lemma IdShape(h: Header)
    ensures Id(h) != "" && Id(h)[0] == ';' && (',' in Id(h) <==> !Lacks(h, ','))
  {
    var m := CreateMetadata(h);
    assert m[|m| - 1] == ';' by { var f := Field("timestamp", h.timestamp); assert f[|f| - 1] == ';'; hide Field; }
    hide Reverse, CreateMetadata;
    ReverseHas(m, ',');
    HasComma(h);
  }

  lemma FieldHas(key: string, value: string, c: char)
    requires c !in key && c != ':' && c != ';'
    ensures c in Field(key, value) <==> c in value
  {
  }

  lemma HasComma(h: Header)
    ensures ',' in CreateMetadata(h) <==> !Lacks(h, ',')
  {
    hide Field;
    FieldHas("sender", h.sender, ',');
    FieldHas("recipient", h.recipient, ',');
    FieldHas("subject", h.subject, ',');
    FieldHas("timestamp", h.timestamp, ',');
  }

  // ----- Parsing a header back -----

  /** The pieces that `getline` delivers: a delimiter at the very end starts no further piece. */
  function Tokens(s: string, d: char): seq<string> {
    var parts := Split(s, d);
    if parts[|parts| - 1] == "" then parts[..|parts| - 1] else parts
  }

  function WithField(headers: map<string, string>, token: string): map<string, string> {
    var colon := IndexOf(token, ':');
    if colon == |token| then headers else headers[token[..colon] := token[colon + 1..]]
  }

  function WithFields(headers: map<string, string>, tokens: seq<string>): map<string, string>
    decreases |tokens|
  {
    if tokens == [] then headers else WithFields(WithField(headers, tokens[0]), tokens[1..])
  }

  method ParseMetadata(meta: string) returns (headers: map<string, string>)
    ensures headers == WithFields(map[], Tokens(meta, ';'))
  {
    hide Split;
    headers := map[];
    var tokens := Tokens(meta, ';');
    for i := 0 to |tokens|
      invariant WithFields(headers, tokens[i..]) == WithFields(map[], tokens)
    {
      assert tokens[i..][0] == tokens[i] && tokens[i..][1..] == tokens[i + 1..];
      headers := WithField(headers, tokens[i]);
    }
  }

  function Parsed(id: string): map<string, string> {
    WithFields(map[], Tokens(Reverse(id), ';'))
  }

  function Fields(h: Header): map<string, string> {
    map["sender" := h.sender, "recipient" := h.recipient, "subject" := h.subject, "timestamp" := h.timestamp]
  }

  lemma FieldOf(headers: map<string, string>, key: string, value: string)
    requires ':' !in key
    ensures WithField(headers, key + ":" + value) == headers[key := value]
  {
    var token := key + ":" + value;
    assert token == key + [':'] + value;
    IndexOfAppend(key, value, ':');
    assert token[..|key|] == key && token[|key| + 1..] == value;
  }

  lemma FirstToken(a: string, rest: string, d: char)
    requires d !in a
    ensures Tokens(a + [d] + rest, d) == [a] + Tokens(rest, d)
  {
    hide Split;
    SplitAppend(a, rest, d);
    var parts := Split(rest, d);
    assert ([a] + parts)[|parts|] == parts[|parts| - 1];
    assert ([a] + parts)[..|parts|] == [a] + parts[..|parts| - 1];
  }

  /** One field read, the rest still to come. */
  lemma FieldRead(headers: map<string, string>, key: string, value: string, rest: string)
    requires ':' !in key && ';' !in key && ';' !in value
    ensures WithFields(headers, Tokens(Field(key, value) + rest, ';')) == WithFields(headers[key := value], Tokens(rest, ';'))
  {
    hide Tokens, WithField;
    var token := key + ":" + value;
    assert Field(key, value) + rest == token + [';'] + rest;
    FirstToken(token, rest, ';');
    FieldOf(headers, key, value);
    assert ([token] + Tokens(rest, ';'))[1..] == Tokens(rest, ';');
  }

  lemma ParsedFields(h: Header)
    requires Lacks(h, ';')
    ensures Parsed(Id(h)) == Fields(h)
  {
    ReverseTwice(CreateMetadata(h));
    hide Reverse, Tokens, WithFields, Field;
    var c, d := Field("subject", h.subject), Field("timestamp", h.timestamp);
    var m1 := map["sender" := h.sender];
    var m2 := m1["recipient" := h.recipient];
    var m3 := m2["subject" := h.subject];
    FieldRead(map[], "sender", h.sender, Field("recipient", h.recipient) + (c + d));
    FieldRead(m1, "recipient", h.recipient, c + d);
    FieldRead(m2, "subject", h.subject, d);
    assert d + "" == d;
    FieldRead(m3, "timestamp", h.timestamp, "");
    NoTokens(m3["timestamp" := h.timestamp]);
  }

  lemma NoTokens(headers: map<string, string>)
    ensures WithFields(headers, Tokens("", ';')) == headers
  {
    hide Split;
    SplitOfNone("", ';');
  }

  lemma {:induction false} ParsedValues(headers: map<string, string>, tokens: seq<string>, c: char)
    requires forall k :: k in headers ==> c !in headers[k]
    requires forall i :: 0 <= i < |tokens| ==> c !in tokens[i]
    ensures forall k :: k in WithFields(headers, tokens) ==> c !in WithFields(headers, tokens)[k]
    decreases |tokens|
  {
    if tokens != [] {
      ParsedValues(WithField(headers, tokens[0]), tokens[1..], c);
    }
  }

  /** Decrypting and parsing an id returns the four fields exactly when none of them holds a semicolon. */
  lemma IdRoundTrip(h: Header)
    ensures Parsed(Id(h)) == Fields(h) <==> Lacks(h, ';')
  {
    if Lacks(h, ';') {
      ParsedFields(h);
    } else {
      var tokens := Tokens(Reverse(Id(h)), ';');
      ParsedValues(map[], tokens, ';');
      SomeValueHas(h, ';');
    }
  }

  lemma SomeValueHas(h: Header, c: char)
    requires !Lacks(h, c)
    ensures exists k :: k in Fields(h) && c in Fields(h)[k]
  {
    var f := Fields(h);
    assert f["sender"] == h.sender && f["recipient"] == h.recipient && f["subject"] == h.subject && f["timestamp"] == h.timestamp;
  }

  // ----- The index of a mailbox -----

  /** The list of ids is the mailbox's other columns; an unused mailbox has no columns at all. */
  ghost predicate Indexed(cols: Columns, ids: seq<string>) {
    && (forall i :: 0 <= i < |ids| ==> IsId(ids[i]))
    && (forall c :: c in cols && c != META <==> c in ids)
    && (if META in cols then cols[META] == Join(ids, ',') else cols == map[])
  }

  ghost predicate IsId(id: string) {
    id != "" && id[0] == ';' && ',' !in id
  }

  ghost predicate Agrees(cols: Columns) {
    exists ids :: Indexed(cols, ids)
  }

  /** The index never reads like an error, so reading it fails only when it is not there. */
  lemma IndexIsNoError(cols: Columns, ids: seq<string>)
    requires Indexed(cols, ids)
    ensures META in cols ==> !StartsWith(cols[META], "ERR") && (cols[META] == "" <==> ids == [])
  {
    if META in cols && ids != [] {
      FirstOfJoin(ids);
    }
  }

  lemma FirstOfJoin(ids: seq<string>)
    requires ids != [] && ids[0] != ""
    ensures Join(ids, ',') != "" && Join(ids, ',')[0] == ids[0][0]
  {
  }

  // ----- Adding and removing -----

  function WithId(cols: Columns, id: string): Columns {
    var current := Fetch(cols, META);
    cols[META := if StartsWith(current, "ERR") || current == "" then id else current + "," + id]
  }

  /** What a delivery does to a mailbox. */
  function Delivered(cols: Columns, id: string, body: string): Columns {
    WithId(cols[id := body], id)
  }

  lemma DeliveredIndexed(cols: Columns, ids: seq<string>, id: string, body: string)
    requires Indexed(cols, ids) && IsId(id)
    ensures Indexed(Delivered(cols, id, body), ids + [id])
  {
    assert id != META by { assert META[0] == 'm'; }
    var cols' := cols[id := body];
    IndexIsNoError(cols, ids);
    JoinSnoc(ids, id, ',');
    if META !in cols {
      assert ids == [] by { assert forall i :: 0 <= i < |ids| ==> ids[i] in cols; }
    }
    hide Join, IsId, Fetch;
    assert META in cols ==> Fetch(cols', META) == cols[META] by { FetchThere(cols', META); }
    assert forall c :: c in ids + [id] <==> c in ids || c == id;
  }

  lemma FetchThere(cols: Columns, c: string)
    ensures c in cols ==> Fetch(cols, c) == cols[c]
  {
  }

  /** After a delivery index and columns agree exactly when the id has no comma. */
  lemma DeliveredAgrees(cols: Columns, h: Header, body: string)
    requires Agrees(cols)
    ensures Agrees(Delivered(cols, Id(h), body)) <==> Lacks(h, ',')
  {
    hide Id, Delivered, Indexed;
    var id := Id(h);
    IdShape(h);
    var ids :| Indexed(cols, ids);
    if Lacks(h, ',') {
      DeliveredIndexed(cols, ids, id, body);
    } else {
      forall xs ensures !Indexed(Delivered(cols, id, body), xs) { CommaBreaks(cols, id, body, xs); }
    }
  }

  lemma CommaBreaks(cols: Columns, id: string, body: string, ids: seq<string>)
    requires ',' in id
    ensures !Indexed(Delivered(cols, id, body), ids)
  {
    assert id != META by { assert ',' !in META; }
    hide Join, Fetch;
    var cols' := Delivered(cols, id, body);
    assert id in cols';
  }

  /** The ids that stay when one is removed. */
  function Kept(ids: seq<string>, id: string): (r: seq<string>)
    ensures forall x :: x in r <==> x in ids && x != "" && x != id
  {
    if ids == [] then [] else if ids[0] == "" || ids[0] == id then Kept(ids[1..], id) else [ids[0]] + Kept(ids[1..], id)
  }

  function Removed(cols: Columns, id: string): Columns {
    var current := Fetch(cols, META);
    if StartsWith(current, "ERR") then cols else cols[META := Join(Kept(Tokens(current, ','), id), ',')]
  }

  /** What a deletion does to a mailbox; the store takes deleting an unknown column as done. */
  function Erased(cols: Columns, id: string): Columns {
    Removed(cols - {id}, id)
  }

  /** The tokens of the index are the ids. */
  lemma TokensOfIndex(ids: seq<string>)
    requires forall i :: 0 <= i < |ids| ==> IsId(ids[i])
    ensures Tokens(Join(ids, ','), ',') == ids
  {
    hide Split;
    if ids == [] {
      SplitOfNone("", ',');
    } else {
      SplitOfJoin(ids, ',');
      assert ids[|ids| - 1] != "";
    }
  }

  lemma ErasedIndexed(cols: Columns, ids: seq<string>, id: string)
    requires Indexed(cols, ids) && id != META
    ensures Indexed(Erased(cols, id), Kept(ids, id))
  {
    IndexIsNoError(cols, ids);
    FetchThere(cols - {id}, META);
    TokensOfIndex(ids);
    assert META !in cols ==> cols - {id} == map[];
    hide Tokens, Join, Fetch, StartsWith, IsId;
    forall i | 0 <= i < |Kept(ids, id)| ensures IsId(Kept(ids, id)[i]) {
      assert Kept(ids, id)[i] in ids;
    }
    forall i | 0 <= i < |ids| ensures ids[i] != "" { IdIsThere(ids[i]); }
  }

  lemma IdIsThere(id: string)
    requires IsId(id)
    ensures id != ""
  {
  }

  /** After a deletion they still agree, except when the index itself was deleted under some message. */
  lemma ErasedAgrees(cols: Columns, id: string)
    requires Agrees(cols)
    ensures Agrees(Erased(cols, id)) <==> id != META || cols.Keys <= {META}
  {
    var ids :| Indexed(cols, ids);
    if id != META {
      ErasedIndexed(cols, ids, id);
    } else {
      var cols' := Erased(cols, id);
      assert cols' == cols - {META};
      if cols.Keys <= {META} {
        assert cols' == map[];
        assert Indexed(cols', []);
      } else {
        var k :| k in cols.Keys && k != META;
        assert META !in cols' && k in cols';
      }
    }
  }

  // ----- All mailboxes, over whole runs -----

  type Rows = map<string, Columns>

  function RowOf(rows: Rows, row: string): Columns {
    if row in rows then rows[row] else map[]
  }

  function InboxRow(user: string): string {
    "inbox_email:" + user
  }

  function SentRow(user: string): string {
    "sent_email:" + user
  }

  /**
   A request to the mail service, a message that the SMTP server delivers to a local recipient, or its notice to
   a sender that a message could not be relayed to another host. The flags of a request say whether the first
   write to the inbox, to the sent mailbox or of the deletion failed; then its index is not touched.
   */
  datatype Request =
    | Send(header: Header, external: bool, inboxFails: bool, sentFails: bool, body: string)
    | Accept(header: Header, body: string)
    | Notify(sender: string, failed: string, reason: string, timestamp: string)
    | Delete(user: string, id: string, sent: bool, fails: bool)

  const LOCALHOST := "@localhost"

  function NoticeHeader(sender: string, failed: string, timestamp: string): Header {
    Header("mailer-daemon@localhost", sender, "Delivery Failed to " + failed, timestamp)
  }

  function NoticeBody(failed: string, reason: string): string {
    "Your email could not be delivered to " + failed + ".\nReason: " + reason
  }

  function After(rows: Rows, r: Request): Rows {
    match r
    case Send(h, external, inboxFails, sentFails, body) =>
      var id := Id(h);
      var mid := if external || inboxFails then rows else rows[InboxRow(h.recipient) := Delivered(RowOf(rows, InboxRow(h.recipient)), id, body)];
      if sentFails then mid else mid[SentRow(h.sender) := Delivered(RowOf(mid, SentRow(h.sender)), id, body)]
    case Accept(h, body) =>
      var id := Id(h);
      var mid := rows[InboxRow(h.recipient) := Delivered(RowOf(rows, InboxRow(h.recipient)), id, body)];
      if Contains(h.sender, LOCALHOST) then mid[SentRow(h.sender) := Delivered(RowOf(mid, SentRow(h.sender)), id, body)] else mid
    case Notify(sender, failed, reason, timestamp) =>
      var row := InboxRow(sender);
      rows[row := Delivered(RowOf(rows, row), Id(NoticeHeader(sender, failed, timestamp)), NoticeBody(failed, reason))]
    case Delete(user, id, sent, fails) =>
      var row := if sent then SentRow(user) else InboxRow(user);
      if fails then rows else rows[row := Erased(RowOf(rows, row), id)]
  }

  function AfterAll(rows: Rows, requests: seq<Request>): Rows
    decreases |requests|
  {
    if requests == [] then rows else AfterAll(After(rows, requests[0]), requests[1..])
  }

  class EmailService {
    var rows: Rows

    constructor ()
      ensures rows == map[]
    {
      rows := map[];
    }

    method Put(row: string, col: string, v: string)
      modifies this
      ensures rows == old(rows)[row := RowOf(old(rows), row)[col := v]]
    {
      rows := rows[row := RowOf(rows, row)[col := v]];
    }

    method AppendToMetadata(row: string, id: string)
      modifies this
      ensures rows == old(rows)[row := WithId(RowOf(old(rows), row), id)]
    {
      var currentMeta := Fetch(RowOf(rows, row), META);
      var newMeta;
      if StartsWith(currentMeta, "ERR") || currentMeta == "" {
        newMeta := id;
      } else {
        newMeta := currentMeta + "," + id;
      }
      Put(row, META, newMeta);
    }

    method RemoveFromMetadata(row: string, id: string)
      requires row in rows
      modifies this
      ensures rows == old(rows)[row := Removed(old(rows)[row], id)]
    {
      hide Tokens, Join;
      var currentMeta := Fetch(rows[row], META);
      if StartsWith(currentMeta, "ERR") {
        assert rows == rows[row := rows[row]];
        return;
      }
      var ids := [];
      var tokens := Tokens(currentMeta, ',');
      for i := 0 to |tokens|
        invariant rows == old(rows) && ids + Kept(tokens[i..], id) == Kept(tokens, id)
      {
        assert tokens[i..][0] == tokens[i] && tokens[i..][1..] == tokens[i + 1..];
        if tokens[i] != "" && tokens[i] != id {
          ids := ids + [tokens[i]];
        }
      }
      assert tokens[|tokens|..] == [] && ids + [] == ids;
      var list := JoinStrings(ids, ',');
      Put(row, META, list);
    }

    method SendEmail(h: Header, external: bool, inboxFails: bool, sentFails: bool, body: string)
      modifies this
      ensures rows == After(old(rows), Send(h, external, inboxFails, sentFails, body))
    {
      hide Id, WithId, InboxRow, SentRow;
      var id := Id(h);
      if !external && !inboxFails {
        Deliver(InboxRow(h.recipient), id, body);
      }
      if !sentFails {
        Deliver(SentRow(h.sender), id, body);
      }
    }

    method Deliver(row: string, id: string, body: string)
      modifies this
      ensures rows == old(rows)[row := Delivered(RowOf(old(rows), row), id, body)]
    {
      hide WithId;
      Put(row, id, body);
      AppendToMetadata(row, id);
    }

    /** What the SMTP server does at the end of DATA for one local recipient. */
    method AcceptMail(h: Header, body: string)
      modifies this
      ensures rows == After(old(rows), Accept(h, body))
    {
      hide Id, WithId, InboxRow, SentRow, Contains;
      var id := Id(h);
      Deliver(InboxRow(h.recipient), id, body);
      if Contains(h.sender, LOCALHOST) {
        Deliver(SentRow(h.sender), id, body);
      }
    }

    /** The notice that goes to the sender's own inbox when relaying fails. */
    method SendDeliveryFailure(sender: string, failed: string, reason: string, timestamp: string)
      modifies this
      ensures rows == After(old(rows), Notify(sender, failed, reason, timestamp))
    {
      hide Id, WithId, InboxRow, NoticeBody;
      Deliver(InboxRow(sender), Id(NoticeHeader(sender, failed, timestamp)), NoticeBody(failed, reason));
    }

    method DeleteEmail(user: string, id: string, sent: bool, fails: bool)
      modifies this
      ensures rows == After(old(rows), Delete(user, id, sent, fails))
    {
      hide Removed;
      var row := if sent then SentRow(user) else InboxRow(user);
      if fails { return; }
      rows := rows[row := RowOf(rows, row) - {id}];
      RemoveFromMetadata(row, id);
    }
  }

  /** The requests that keep an index: no comma in a field, and nobody deletes "meta". */
  predicate Plain(r: Request) {
    match r
    case Send(h, _, _, _, _) => Lacks(h, ',')
    case Accept(h, _) => Lacks(h, ',')
    case Notify(sender, failed, _, timestamp) => Lacks(NoticeHeader(sender, failed, timestamp), ',')
    case Delete(_, id, _, _) => id != META
  }

  ghost predicate AllAgree(rows: Rows) {
    forall r :: Agrees(RowOf(rows, r))
  }

  lemma AgreeWith(rows: Rows, row: string, cols: Columns)
    requires AllAgree(rows) && Agrees(cols)
    ensures AllAgree(rows[row := cols])
  {
    hide Agrees;
    var rows' := rows[row := cols];
    forall r ensures Agrees(RowOf(rows', r)) {
      assert Agrees(RowOf(rows, r));
    }
  }

  lemma AgreeAt(rows: Rows, row: string)
    requires AllAgree(rows)
    ensures Agrees(RowOf(rows, row))
  {
    hide Agrees;
  }

  lemma DeliveryAgrees(rows: Rows, row: string, h: Header, body: string)
    requires AllAgree(rows) && Lacks(h, ',')
    ensures AllAgree(rows[row := Delivered(RowOf(rows, row), Id(h), body)])
  {
    hide AllAgree, Agrees, Id, Delivered, Lacks;
    AgreeAt(rows, row);
    DeliveredAgrees(RowOf(rows, row), h, body);
    AgreeWith(rows, row, Delivered(RowOf(rows, row), Id(h), body));
  }

  lemma AfterAgrees(rows: Rows, r: Request)
    requires AllAgree(rows) && Plain(r)
    ensures AllAgree(After(rows, r))
  {
    hide AllAgree, Agrees, Id, Delivered, InboxRow, SentRow, Erased, Lacks, Contains;
    match r
    case Send(h, external, inboxFails, sentFails, body) =>
      DeliveryAgrees(rows, InboxRow(h.recipient), h, body);
      var mid := if external || inboxFails then rows else rows[InboxRow(h.recipient) := Delivered(RowOf(rows, InboxRow(h.recipient)), Id(h), body)];
      DeliveryAgrees(mid, SentRow(h.sender), h, body);
    case Accept(h, body) =>
      DeliveryAgrees(rows, InboxRow(h.recipient), h, body);
      var mid := rows[InboxRow(h.recipient) := Delivered(RowOf(rows, InboxRow(h.recipient)), Id(h), body)];
      DeliveryAgrees(mid, SentRow(h.sender), h, body);
    case Notify(sender, failed, reason, timestamp) =>
      DeliveryAgrees(rows, InboxRow(sender), NoticeHeader(sender, failed, timestamp), NoticeBody(failed, reason));
    case Delete(user, id, sent, _) =>
      var row := if sent then SentRow(user) else InboxRow(user);
      AgreeAt(rows, row);
      ErasedAgrees(RowOf(rows, row), id);
      AgreeWith(rows, row, Erased(RowOf(rows, row), id));
  }

  /** Over every run of plain requests, the ids in every index are exactly the messages of its mailbox. */
  lemma {:induction false} RunAgrees(rows: Rows, requests: seq<Request>)
    requires AllAgree(rows) && forall i :: 0 <= i < |requests| ==> Plain(requests[i])
    ensures AllAgree(AfterAll(rows, requests))
    decreases |requests|
  {
    hide AllAgree, After, Plain;
    if requests != [] {
      AfterAgrees(rows, requests[0]);
      RunAgrees(After(rows, requests[0]), requests[1..]);
    }
  }

  /** The service starts without mailboxes, so its runs begin in agreement. */
  lemma EmptyAgrees()
    ensures AllAgree(map[])
  {
    assert Indexed(map[], []);
  }

  // ----- What breaks an index -----

  /** One message with a comma in its subject. */
  lemma CommaInSubject()
    ensures !AllAgree(AfterAll(map[], [Send(Header("ann", "bob@localhost", "hi, bob", "now"), false, false, false, "text")]))
  {
    var h := Header("ann", "bob@localhost", "hi, bob", "now");
    var r := Send(h, false, false, false, "text");
    assert !Lacks(h, ',') by { assert "hi, bob"[2] == ','; }
    hide *;
    EmptyAgrees();
    SentBreaks(map[], h, "text");
    OneRequest(map[], r);
  }

  lemma SentBreaks(rows: Rows, h: Header, body: string)
    requires AllAgree(rows) && !Lacks(h, ',')
    ensures !AllAgree(After(rows, Send(h, false, false, false, body)))
  {
    var rows' := After(rows, Send(h, false, false, false, body));
    var inbox, sent := InboxRow(h.recipient), SentRow(h.sender);
    assert inbox != sent by { assert inbox[0] == 'i' && sent[0] == 's'; }
    assert RowOf(rows', inbox) == Delivered(RowOf(rows, inbox), Id(h), body);
    hide After, AllAgree, Agrees, Delivered, Id, InboxRow, SentRow, Lacks;
    AgreeAt(rows, inbox);
    DeliveredAgrees(RowOf(rows, inbox), h, body);
    if AllAgree(rows') {
      AgreeAt(rows', inbox);
    }
  }

  lemma OneRequest(rows: Rows, r: Request)
    ensures AfterAll(rows, [r]) == After(rows, r)
  {
    hide After;
    assert [r][1..] == [];
  }

  lemma TwoRequests(rows: Rows, a: Request, b: Request)
    ensures AfterAll(rows, [a, b]) == AfterAll(After(rows, a), [b])
  {
    hide After;
    assert [a, b][1..] == [b];
  }

  /** One message, and then a request to delete the column meta. */
  lemma IndexDeleted()
    ensures !AllAgree(AfterAll(map[], [Send(Header("ann", "bob@localhost", "hi", "now"), false, false, false, "text"), Delete("bob@localhost", META, false, false)]))
  {
    var h := Header("ann", "bob@localhost", "hi", "now");
    var a, b := Send(h, false, false, false, "text"), Delete("bob@localhost", META, false, false);
    assert Lacks(h, ',');
    assert Plain(a);
    hide *;
    var rows := After(map[], a);
    TwoRequests(map[], a, b);
    EmptyAgrees();
    AfterAgrees(map[], a);
    DeliveredThere(h, "text");
    DeletedBreaks(rows, h);
    OneRequest(rows, b);
  }

  lemma DeliveredThere(h: Header, body: string)
    ensures Id(h) in RowOf(After(map[], Send(h, false, false, false, body)), InboxRow(h.recipient)) && Id(h) != META
  {
    IdShape(h);
    var inbox, sent := InboxRow(h.recipient), SentRow(h.sender);
    assert inbox != sent by { assert inbox[0] == 'i' && sent[0] == 's'; }
    assert Id(h) != META by { assert META[0] == 'm'; }
    hide Id, InboxRow, SentRow, Fetch;
  }

  lemma DeletedBreaks(rows: Rows, h: Header)
    requires AllAgree(rows) && Id(h) in RowOf(rows, InboxRow(h.recipient)) && Id(h) != META
    ensures !AllAgree(After(rows, Delete(h.recipient, META, false, false)))
  {
    var row := InboxRow(h.recipient);
    var rows' := After(rows, Delete(h.recipient, META, false, false));
    assert RowOf(rows', row) == Erased(RowOf(rows, row), META);
    hide After, AllAgree, Agrees, Erased, Id, InboxRow;
    AgreeAt(rows, row);
    ErasedAgrees(RowOf(rows, row), META);
    if AllAgree(rows') {
      AgreeAt(rows', row);
    }
  }
}

/**
 * What the handler does with an accepted form: normalise the five fields, build
 * the subject line, the plain-text body, the HTML body and the reply-to address,
 * and assemble the message handed to the email provider.
 */
module Render {
  import opened Wrappers
  import opened Text
  import opened HtmlEscape
  import opened EmailShape

  /** The request body as it arrives: each field may be missing or `null`. */
  datatype FormBody = FormBody(
    fullName: Option<string>,
    email: Option<string>,
    phone: Option<string>,
    address: Option<string>,
    contactMethod: Option<string>)

  /** The five fields after normalisation. */
  datatype Submission = Submission(
    fullName: string,
    email: string,
    phone: string,
    address: string,
    contactMethod: string)

  /** The message handed to the email provider. */
  datatype Email = Email(
    from: string,
    to: string,
    subject: string,
    text: string,
    html: string,
    replyTo: Option<string>)

  const NoFields := FormBody(None, None, None, None, None)

  /** `r` is what `String(x ?? "").trim()` gives for the field `x`: empty when the
      field is missing, otherwise the value with its whitespace margins cut off. */
  predicate FieldOf(x: Option<string>, r: string) {
    && (x.None? ==> r == [])
    && (x.Some? ==> IsTrimOf(x.value, r, SkipSpaces(x.value, 0), SkipSpaces(x.value, 0) + |r|))
  }

  /** `String(x ?? "").trim()`. */
  function Field(x: Option<string>): (r: string)
    ensures IsTrimmed(r)
    ensures FieldOf(x, r)
  {
    Trim(x.GetOr(""))
  }

  predicate Normalized(s: Submission) {
    IsTrimmed(s.fullName) && IsTrimmed(s.email) && IsTrimmed(s.phone)
    && IsTrimmed(s.address) && IsTrimmed(s.contactMethod)
  }

  /** `req.body ?? {}` followed by the five field normalisations: each field of
      the result comes from the field of the same name in the body. */
  function Normalize(body: Option<FormBody>): (s: Submission)
    ensures Normalized(s)
    ensures body.None? ==> s == Submission([], [], [], [], [])
    ensures body.Some? ==>
      && FieldOf(body.value.fullName, s.fullName)
      && FieldOf(body.value.email, s.email)
      && FieldOf(body.value.phone, s.phone)
      && FieldOf(body.value.address, s.address)
      && FieldOf(body.value.contactMethod, s.contactMethod)
  {
    var b := body.GetOr(NoFields);
    Submission(Field(b.fullName), Field(b.email), Field(b.phone), Field(b.address), Field(b.contactMethod))
  }

  /** An absent body, an absent name and a whitespace-only name all normalise to an
      empty name, which the handler rejects as shorter than two characters. */
  lemma BlankNameIsEmpty(body: Option<FormBody>)
    requires body.None? || body.value.fullName.None? || AllSpace(body.value.fullName.value)
    ensures Normalize(body).fullName == []
  {
    if body.Some? && body.value.fullName.Some? {
      TrimAllSpace(body.value.fullName.value);
    }
  }

  /** `value || "-"`: an empty field is shown as a dash. */
  function OrDash(value: string): (r: string)
    ensures value == [] ==> r == "-"
    ensures value != [] ==> r == value
  {
    if value == [] then "-" else value
  }

  function Subject(fullName: string): string {
    "New Believer Connection: " + fullName
  }

  /** The nine lines of the plain-text body. */
  function TextLines(s: Submission, submittedAt: string): seq<string> {
    [ "New Believer Form Submission",
      "--------------------------------",
      "Full Name: " + s.fullName,
      "Email: " + OrDash(s.email),
      "Phone: " + OrDash(s.phone),
      "Address: " + OrDash(s.address),
      "Preferred Contact Method: " + OrDash(s.contactMethod),
      "",
      "Submitted: " + submittedAt ]
  }

  function TextBody(s: Submission, submittedAt: string): string {
    Join(TextLines(s, submittedAt), "\n")
  }

  /** The plain-text body shows every field, unescaped, with empty optional fields
      as a dash, and the submission time. */
  lemma TextBodyShowsFields(s: Submission, submittedAt: string)
    ensures var text := TextBody(s, submittedAt);
      && Contains(text, "Full Name: " + s.fullName)
      && Contains(text, "Email: " + OrDash(s.email))
      && Contains(text, "Phone: " + OrDash(s.phone))
      && Contains(text, "Address: " + OrDash(s.address))
      && Contains(text, "Preferred Contact Method: " + OrDash(s.contactMethod))
      && Contains(text, "Submitted: " + submittedAt)
  {
    var lines := TextLines(s, submittedAt);
    JoinContains(lines, "\n", 2);
    JoinContains(lines, "\n", 3);
    JoinContains(lines, "\n", 4);
    JoinContains(lines, "\n", 5);
    JoinContains(lines, "\n", 6);
    JoinContains(lines, "\n", 8);
  }

  /** One table row, a caption cell and a value cell, both escaped. */
  function Row(caption: string, value: string): string {
    "<tr><td>" + Esc(caption) + "</td><td>" + Esc(value) + "</td></tr>"
  }

  const HtmlHead := "<!doctype html><html><head><meta charset=\"utf-8\" /><title>"
  const HtmlMid := "</title></head><body><h2>New Believer Connection</h2><table>"
  const HtmlTail := "</table></body></html>"

  /** The page around the title text and the table rows. */
  function Page(title: string, rows: string): string {
    HtmlHead + title + HtmlMid + rows + HtmlTail
  }

  /** The captions and values of the four table rows. */
  function Cells(s: Submission): seq<(string, string)> {
    [ ("Email", OrDash(s.email)),
      ("Phone", OrDash(s.phone)),
      ("Address", OrDash(s.address)),
      ("Preferred Contact", OrDash(s.contactMethod)) ]
  }

  /** The rows, one after the other. */
  function Table(cells: seq<(string, string)>): string {
    if cells == [] then [] else Row(cells[0].0, cells[0].1) + Table(cells[1..])
  }

  function Rows(s: Submission): string {
    Table(Cells(s))
  }

  /** The HTML body: the escaped subject as the title and a table of the four
      optional fields; the name itself appears only inside the title. */
  function HtmlBody(s: Submission): string {
    Page(Esc(Subject(s.fullName)), Rows(s))
  }

  /** The markup characters a row contributes come from its fixed frame only. */
  lemma RowMarkup(caption: string, value: string, c: char)
    requires IsMarkup(c)
    ensures Count(Row(caption, value), c) == RowFrameMarkup(c)
  {
    var a := "<tr><td>" + Esc(caption);
    var b := a + "</td><td>";
    var d := b + Esc(value);
    CountConcat("<tr><td>", Esc(caption), c);
    CountConcat(a, "</td><td>", c);
    CountConcat(b, Esc(value), c);
    CountConcat(d, "</td></tr>", c);
    EscCountZero(caption, c);
    EscCountZero(value, c);
  }

  function RowFrameMarkup(c: char): nat {
    Count("<tr><td>", c) + Count("</td><td>", c) + Count("</td></tr>", c)
  }

  /** Each row adds the markup of its frame and nothing else. */
  lemma {:induction false} TableMarkup(cells: seq<(string, string)>, c: char)
    requires IsMarkup(c)
    ensures Count(Table(cells), c) == |cells| * RowFrameMarkup(c)
  {
    if cells == [] {
      assert Table(cells) == [];
    } else {
      TableMarkup(cells[1..], c);
      TableCons(cells, c);
    }
  }

  /** The inductive step of `TableMarkup`: one more row adds one more frame. */
  lemma TableCons(cells: seq<(string, string)>, c: char)
    requires IsMarkup(c) && cells != []
    requires Count(Table(cells[1..]), c) == |cells[1..]| * RowFrameMarkup(c)
    ensures Count(Table(cells), c) == |cells| * RowFrameMarkup(c)
  {
    var n, f := |cells|, RowFrameMarkup(c);
    calc {
      Count(Table(cells), c);
      { TableStep(cells, c); }
      f + Count(Table(cells[1..]), c);
      { assert |cells[1..]| == n - 1; }
      f + (n - 1) * f;
      { MulStep(n, f); }
      n * f;
    }
  }

  lemma MulStep(n: int, f: int)
    ensures (n - 1) * f + f == n * f
  {
  }

  lemma TableStep(cells: seq<(string, string)>, c: char)
    requires IsMarkup(c) && cells != []
    ensures Count(Table(cells), c) == RowFrameMarkup(c) + Count(Table(cells[1..]), c)
  {
    RowMarkup(cells[0].0, cells[0].1, c);
    CountConcat(Row(cells[0].0, cells[0].1), Table(cells[1..]), c);
  }

  lemma PageMarkup(title: string, rows: string, c: char)
    ensures Count(Page(title, rows), c)
         == Count(HtmlHead, c) + Count(title, c) + Count(HtmlMid, c) + Count(rows, c) + Count(HtmlTail, c)
  {
    var h := HtmlHead;
    var m := HtmlMid;
    var t := HtmlTail;
    CountConcat(h, title, c);
    CountConcat(h + title, m, c);
    CountConcat(h + title + m, rows, c);
    CountConcat(h + title + m + rows, t, c);
  }

  /** No submission can add or remove markup: the number of `<`, `>` and `"`
      characters in the HTML body is that of the template alone. */
  lemma HtmlMarkupFixed(s: Submission, c: char)
    requires IsMarkup(c)
    ensures Count(HtmlBody(s), c)
         == Count(HtmlHead, c) + Count(HtmlMid, c) + Count(HtmlTail, c) + 4 * RowFrameMarkup(c)
  {
    PageMarkup(Esc(Subject(s.fullName)), Rows(s), c);
    EscCountZero(Subject(s.fullName), c);
    TableMarkup(Cells(s), c);
  }

  lemma RowShowsValue(caption: string, value: string)
    ensures Contains(Row(caption, value), Esc(value))
  {
    var v := Esc(value);
    var b := "<tr><td>" + Esc(caption) + "</td><td>";
    ContainsSelf(v);
    ContainsExtend(v, v, b);
    ContainsExtend(b + v, v, "</td></tr>");
  }

  /** Every value of the table occurs in it, escaped. */
  lemma {:induction false} TableShows(cells: seq<(string, string)>, k: nat)
    requires k < |cells|
    ensures Contains(Table(cells), Esc(cells[k].1))
  {
    var head, tail := Row(cells[0].0, cells[0].1), Table(cells[1..]);
    if k == 0 {
      RowShowsValue(cells[0].0, cells[0].1);
      ContainsExtend(head, Esc(cells[0].1), tail);
    } else {
      TableShows(cells[1..], k - 1);
      ContainsExtend(tail, Esc(cells[k].1), head);
    }
  }

  /** Whatever occurs in the title or the rows occurs in the page. */
  lemma PageShows(title: string, rows: string, t: string)
    requires Contains(title, t) || Contains(rows, t)
    ensures Contains(Page(title, rows), t)
  {
    var h := HtmlHead;
    var m := HtmlMid;
    if Contains(title, t) {
      ContainsExtend(title, t, h);
      ContainsExtend(h + title, t, m + rows + HtmlTail);
      assert h + title + (m + rows + HtmlTail) == Page(title, rows);
    } else {
      ContainsExtend(rows, t, h + title + m);
      ContainsExtend(h + title + m + rows, t, HtmlTail);
    }
  }

  /** The HTML body shows the escaped subject and each optional field escaped,
      with empty fields as a dash. */
  lemma HtmlShowsFields(s: Submission)
    ensures var html := HtmlBody(s);
      && Contains(html, Esc(Subject(s.fullName)))
      && Contains(html, Esc(OrDash(s.email)))
      && Contains(html, Esc(OrDash(s.phone)))
      && Contains(html, Esc(OrDash(s.address)))
      && Contains(html, Esc(OrDash(s.contactMethod)))
  {
    var t := Esc(Subject(s.fullName));
    var cells := Cells(s);
    ContainsSelf(t);
    PageShows(t, Rows(s), t);
    TableShows(cells, 0);
    TableShows(cells, 1);
    TableShows(cells, 2);
    TableShows(cells, 3);
    PageShows(t, Rows(s), Esc(OrDash(s.email)));
    PageShows(t, Rows(s), Esc(OrDash(s.phone)));
    PageShows(t, Rows(s), Esc(OrDash(s.address)));
    PageShows(t, Rows(s), Esc(OrDash(s.contactMethod)));
  }

  /** `isValidEmail(email) ? email : undefined`. */
  function ReplyTo(email: string): (r: Option<string>)
    ensures r.Some? <==> MatchesPattern(email)
    ensures r.Some? ==> r.value == email
  {
    IsValidEmailIff(email);
    if IsValidEmail(email) then Some(email) else None
  }

  /** The message for an accepted submission. Sender and recipient are the
      configured addresses; nothing from the request reaches them. */
  function Compose(s: Submission, from: string, to: string, submittedAt: string): (m: Email)
    ensures m.from == from && m.to == to
    ensures m.subject == "New Believer Connection: " + s.fullName
    ensures m.replyTo.Some? <==> MatchesPattern(s.email)
    ensures m.replyTo.Some? ==> m.replyTo.value == s.email
    ensures m.text == TextBody(s, submittedAt) && m.html == HtmlBody(s)
  {
    Email(from, to, Subject(s.fullName), TextBody(s, submittedAt), HtmlBody(s), ReplyTo(s.email))
  }
}

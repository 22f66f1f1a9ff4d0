/**
  `send_email(keyword, items)`: the credentials check, the recipient list
  and the plain-text body. The environment is a parameter; connecting to
  the SMTP server, the MIME encoding and `formataddr` are not modelled, so
  the method returns the message it would hand to the server, or `None`
  when it returns early for lack of credentials.
*/
module Mail {
  import opened Wrappers
  import opened Text
  import opened Scan

  /** The environment variables `send_email` reads (`None` when unset). */
  datatype Env = Env(smtpUser: Option<string>, smtpPassword: Option<string>,
                     smtpFrom: Option<string>, smtpTo: Option<string>)

  /** The message handed to the SMTP server. */
  datatype Email = Email(sender: string, recipients: seq<string>, subject: string, body: string)

  const Subject := "[Hibrain 임용 알리미] " + "지정 키워드 " + "신규 감지 결과"

  const Notice := "※ 이 메일은 " + "자동으로 발송되었습니다."
  const RepoLabel := "GitHub Repo Address:"
  const RepoUrl := "https://github.com/" + "leemgs/" + "hibrain-prof-notifier/"
  const Footer := ["", Notice, "", "-----", RepoLabel, RepoUrl]

  /** A Python string that is set and not empty is truthy. */
  predicate Truthy(v: Option<string>) {
    v.Some? && v.value != []
  }

  /** `os.environ.get("SMTP_FROM", smtp_user)`. */
  function Sender(env: Env): Option<string> {
    if env.smtpFrom.Some? then env.smtpFrom else env.smtpUser
  }

  /** `smtp_user and smtp_password and smtp_to_raw and smtp_from`. */
  predicate CanSend(env: Env) {
    Truthy(env.smtpUser) && Truthy(env.smtpPassword) && Truthy(env.smtpTo) && Truthy(Sender(env))
  }

  /** `[addr.strip() for addr in smtp_to_raw.split(",") if addr.strip()]`. */
  function Recipients(raw: string): seq<string> {
    StrippedNonEmpty(Split(raw, ','))
  }

  /** Every recipient is a non-empty, stripped address without a comma, and
      an address is a recipient exactly when some comma-separated part of
      the setting strips to it. */
  lemma RecipientsSpec(raw: string, a: string)
    ensures forall r :: r in Recipients(raw) ==> r != [] && IsStripped(r) && ',' !in r
    ensures a in Recipients(raw) <==> a != [] && SomeStripsTo(Split(raw, ','), a)
  {
    StrippedNonEmptyMembers(Split(raw, ','), a);
    forall r | r in Recipients(raw) ensures ',' !in r {
      StrippedNonEmptyMembers(Split(raw, ','), r);
      var x :| x in Split(raw, ',') && Strip(x) == r;
    }
  }

  /** The keyword line: with the representative period (that of the first
      item) when there is one and it is not empty. */
  function Header(keyword: string, items: seq<Item>): string {
    if items != [] && items[0].period != [] then "■ 키워드: " + keyword + " (모집기간: " + items[0].period + ")"
    else "■ 키워드: " + keyword
  }

  /** The line for the `i`-th link. */
  function LinkLine(i: nat, link: string): string {
    "  - 관련 링크 " + DecimalString(i) + ": " + link
  }

  /** The link lines for `items`, numbered from `first`. */
  function LinkLines(items: seq<Item>, first: nat): seq<string>
    decreases |items|
  {
    if items == [] then [] else [LinkLine(first, items[0].link)] + LinkLines(items[1..], first + 1)
  }

  /** The `lines` list of `send_email`. */
  function BodyLines(keyword: string, items: seq<Item>): seq<string> {
    [Subject, "", Header(keyword, items)] + LinkLines(items, 1) + Footer
  }

  /** There is one link line per item, in item order, numbered from `first`
      up; each one's number reads back as its position plus `first`. */
  lemma {:induction false} LinkLinesSpec(items: seq<Item>, first: nat)
    ensures |LinkLines(items, first)| == |items|
    ensures forall i :: 0 <= i < |items| ==> LinkLines(items, first)[i] == LinkLine(first + i, items[i].link)
    decreases |items|
  {
    if items != [] {
      LinkLinesSpec(items[1..], first + 1);
    }
  }

  /** The body has the subject line, a blank line, the keyword line, the
      link lines numbered 1 to n in item order and the fixed footer. */
  lemma BodyLinesSpec(keyword: string, items: seq<Item>)
    ensures var lines := BodyLines(keyword, items);
      |lines| == |items| + 9 &&
      lines[0] == Subject && lines[1] == "" && lines[2] == Header(keyword, items) &&
      (forall i :: 0 <= i < |items| ==> lines[3 + i] == LinkLine(i + 1, items[i].link)) &&
      lines[|items| + 3..] == Footer
  {
    LinkLinesSpec(items, 1);
  }

  /** The number written on a link line reads back as that number. */
  lemma LinkLineNumber(i: nat, link: string)
    ensures var prefix := "  - 관련 링크 ";
      DecimalValue(LinkLine(i, link)[|prefix|..|prefix| + |DecimalString(i)|]) == i
  {
    var prefix := "  - 관련 링크 ";
    assert LinkLine(i, link)[|prefix|..|prefix| + |DecimalString(i)|] == DecimalString(i);
    DecimalRoundTrip(i);
  }

  lemma LinkLineNoBreak(i: nat, link: string)
    requires '\n' !in link
    ensures '\n' !in LinkLine(i, link)
  {
    var digits := DecimalString(i);
    assert forall k :: 0 <= k < |digits| ==> digits[k] != '\n';
  }

  lemma SubjectNoBreak()
    ensures '\n' !in Subject
  {
    assert '\n' !in "[Hibrain 임용 알리미] ";
    assert '\n' !in "지정 키워드 ";
    assert '\n' !in "신규 감지 결과";
  }

  lemma NoticeNoBreak()
    ensures '\n' !in Notice
  {
    assert '\n' !in "※ 이 메일은 ";
    assert '\n' !in "자동으로 발송되었습니다.";
  }

  lemma RepoLabelNoBreak() ensures '\n' !in RepoLabel { }

  lemma RepoUrlNoBreak()
    ensures '\n' !in RepoUrl
  {
    assert '\n' !in "https://github.com/";
    assert '\n' !in "leemgs/";
    assert '\n' !in "hibrain-prof-notifier/";
  }

  lemma FooterNoBreak()
    ensures forall k :: 0 <= k < |Footer| ==> '\n' !in Footer[k]
  {
    NoticeNoBreak();
    RepoLabelNoBreak();
    RepoUrlNoBreak();
  }

  lemma HeaderNoBreak(keyword: string, items: seq<Item>)
    requires '\n' !in keyword
    requires items != [] ==> '\n' !in items[0].period
    ensures '\n' !in Header(keyword, items)
  {
    assert '\n' !in "■ 키워드: ";
    assert '\n' !in " (모집기간: ";
  }

  /** When neither the keyword nor any link or period holds a line break,
      splitting the body at line breaks gives back exactly its lines. */
  lemma BodySplitsIntoLines(keyword: string, items: seq<Item>)
    requires '\n' !in keyword
    requires forall it :: it in items ==> '\n' !in it.link && '\n' !in it.period
    ensures Split(Join(BodyLines(keyword, items), "\n"), '\n') == BodyLines(keyword, items)
  {
    var lines := BodyLines(keyword, items);
    BodyLinesSpec(keyword, items);
    FooterNoBreak();
    SubjectNoBreak();
    if items != [] {
      assert items[0] in items;
    }
    HeaderNoBreak(keyword, items);
    forall l | l in lines ensures '\n' !in l {
      var k :| 0 <= k < |lines| && lines[k] == l;
      if k >= |items| + 3 {
        assert l == Footer[k - |items| - 3];
      } else if k >= 3 {
        var i := k - 3;
        assert items[i] in items;
        LinkLineNoBreak(i + 1, items[i].link);
      }
    }
    JoinSplit(lines, '\n');
  }

  /** `send_email(keyword, items)` up to the hand-over to the SMTP server. */
  method SendEmail(keyword: string, items: seq<Item>, env: Env) returns (mail: Option<Email>)
    ensures mail.Some? <==> CanSend(env)
    ensures mail.Some? ==> mail.value.sender == Sender(env).value &&
                           mail.value.recipients == Recipients(env.smtpTo.value) &&
                           mail.value.subject == Subject &&
                           mail.value.body == Join(BodyLines(keyword, items), "\n")
  {
    var user, password, to := env.smtpUser, env.smtpPassword, env.smtpTo;
    var from := if env.smtpFrom.Some? then env.smtpFrom else user;
    if !(Truthy(user) && Truthy(password) && Truthy(to) && Truthy(from)) {
      return None;
    }
    var toAddrs := StrippedNonEmpty(Split(to.value, ','));

    var lines := BuildLines(keyword, items);
    mail := Some(Email(from.value, toAddrs, Subject, Join(lines, "\n")));
  }

  /** The `lines` list of `send_email`, built line by line. */
  method BuildLines(keyword: string, items: seq<Item>) returns (lines: seq<string>)
    ensures lines == BodyLines(keyword, items)
  {
    lines := [];
    lines := lines + [Subject];
    lines := lines + [""];
    var period: Option<string> := None;
    if items != [] {
      period := Some(items[0].period);
    }
    if period.Some? && period.value != [] {
      lines := lines + ["■ 키워드: " + keyword + " (모집기간: " + period.value + ")"];
    } else {
      lines := lines + ["■ 키워드: " + keyword];
    }
    var idx := 0;
    while idx < |items|
      invariant 0 <= idx <= |items|
      invariant lines == [Subject, "", Header(keyword, items)] + LinkLines(items[..idx], 1)
    {
      lines := lines + [LinkLine(idx + 1, items[idx].link)];
      idx := idx + 1;
      LinkLinesSnoc(items[..idx], 1);
      assert items[..idx][..idx - 1] == items[..idx - 1];
    }
    assert items[..idx] == items;
    ghost var withLinks := lines;
    lines := lines + [""];
    lines := lines + [Notice];
    lines := lines + [""];
    lines := lines + ["-----"];
    lines := lines + [RepoLabel];
    lines := lines + [RepoUrl];

    assert lines == withLinks + Footer;
  }

  /** Appending one more link line at the end. */
  lemma {:induction false} LinkLinesSnoc(items: seq<Item>, first: nat)
    requires items != []
    ensures LinkLines(items, first) ==
      LinkLines(items[..|items| - 1], first) + [LinkLine(first + |items| - 1, items[|items| - 1].link)]
    decreases |items|
  {
    if |items| > 1 {
      LinkLinesSnoc(items[1..], first + 1);
      assert items[1..][..|items| - 2] == items[..|items| - 1][1..];
    }
  }
}
